/**
 * The command language of the retro terminal: how a submitted line is split
 * into a command and its argument, the fixed command table, the fixed texts
 * each command prints, the theme set, and the `neofetch` two-column layout.
 */
module TerminalCommands {
  import opened Wrappers
  import opened Strings

  /** A line's `data-glow` tag: none, or the pulsing hint. */
  datatype Glow = NoGlow | Pulse

  /** One output line: its text and its glow tag. */
  datatype Line = Line(text: string, glow: Glow)

  /** A theme button: its `data-theme` and its `aria-pressed` attribute. */
  datatype ThemeButton = ThemeButton(dataTheme: string, ariaPressed: string)

  const Themes: set<string> := {"green", "amber", "blue"}
  const DefaultTheme := "green"
  const DefaultPrompt := @"C:\retro>"
  const HintText := "Type HELP for command list"
  const UsageText := "Usage: theme green | theme amber | theme blue"
  const ThemeSetPrefix := "Theme set to "
  const UnknownPrefix := "Unknown command: "
  /** The column at which `neofetch` starts its information text. */
  const LogoColumn := 24

  const HintLine := Line(HintText, Pulse)

  const BootLines: seq<string> := [
      "Booting cool-retro-term ...",
      ">> Memory check: OK",
      ">> Video signal: stable",
      ">> Loading neon matrix...",
      ">> Bringing phosphor online",
      ">> Ready for user input",
      "Welcome back, operator."
    ]

  const HelpLines: seq<string> := [
      "Available commands:",
      "help  .............. show this list",
      "theme <color> ...... switch phosphor (green/amber/blue)",
      "cls   .............. clear the screen",
      "about .............. terminal details",
      "neofetch ........... system snapshot"
    ]

  const AboutLines: seq<string> := [
      "Cool Retro Terminal v1.0",
      "Simulating CRT experience with ambient flicker",
      "Font: IBM Plex Mono"
    ]

  /** The ASCII logo, after the template's `trim()` and `split('\n')`. */
  const Logo: seq<string> := [
      @"____",
      @"         / __ \",
      @"   _   _| |  | |___  ___ _ __",
      @"  | | | | |  | / __|/ _ \ '__|",
      @"  | |_| | |__| \__ \  __/ |",
      @"   \__, |\____/|___/\___|_|",
      @"   __/ |",
      @"  |___/"
    ]

  /** The information column, which names the current theme or "green" when none is set. */
  function Info(theme: string): (info: seq<string>)
    ensures |info| == 12
  {
    [ "operator@cool-retro-term",
      "-------------------------",
      "OS: CRT Simulation 1.0",
      "Kernel: Glass-Tube 68k",
      "Uptime: 42 years",
      "Packages: 7 (phosphor)",
      "Shell: faux-cmd",
      "Resolution: fullscreen",
      "Theme: " + (if theme == "" then DefaultTheme else theme),
      "CPU: Neon Beam 3.5MHz",
      "GPU: Vector Glow 512k",
      "Memory: 640KB (enough for anyone)" ]
  }

  /** The prompt echoed before each submitted line: the path element's trimmed text, or the default. */
  function PromptPrefix(pathText: Option<string>): (r: string)
    ensures pathText.None? ==> r == DefaultPrompt
    ensures pathText.Some? ==> InnerPart(pathText.value, r) && (r == [] || (!IsSpace(r[0]) && !IsSpace(r[|r| - 1])))
  {
    match pathText
    case Some(text) => Trim(text)
    case None => DefaultPrompt
  }

  /** Untagged lines with the given texts, in order. */
  function Plain(texts: seq<string>): (lines: seq<Line>)
    ensures |lines| == |texts|
    ensures forall i :: 0 <= i < |texts| ==> lines[i] == Line(texts[i], NoGlow)
  {
    seq(|texts|, i requires 0 <= i < |texts| => Line(texts[i], NoGlow))
  }

  /** Plain lines of a sequence of texts with one more text at its end. */
  lemma PlainAppend(texts: seq<string>, text: string)
    ensures Plain(texts + [text]) == Plain(texts) + [Line(text, NoGlow)]
  {
  }

  /** Plain lines of two sequences of texts, one after the other. */
  lemma PlainConcat(a: seq<string>, b: seq<string>)
    ensures Plain(a + b) == Plain(a) + Plain(b)
  {
  }

  // ---------------------------------------------------------------- tokenising

  /**
   * `handleCommand`'s split of a submitted value: the first white-space
   * separated token of the trimmed value in its original case (or "" when
   * there is none), that token lower-cased, and the remaining tokens joined
   * by single spaces.
   */
  datatype Tokens = Tokens(command: string, rawCommand: string, arg: string)

  function Tokenize(value: string): (t: Tokens)
    ensures t.command == Lower(t.rawCommand)
    ensures t.rawCommand == "" <==> Blank(value)
    ensures NoSpace(t.rawCommand)
    ensures t.rawCommand == "" ==> t.arg == ""
    ensures t.rawCommand != "" ==> Words(value) == [t.rawCommand] + Words(t.arg)
  {
    WordsEmptyIffBlank(value);
    var words := Words(value);
    if words == [] then Tokens("", "", "")
    else
      WordsJoinRoundTrip(words[1..]);
      assert words == [words[0]] + words[1..];
      Tokens(Lower(words[0]), words[0], Join(words[1..], " "))
  }

  /**
   * The tokens of a line made of non-empty, space-free words separated by
   * single spaces are its first word, lower-cased and as typed, and the rest.
   */
  lemma TokenizeOfWords(ws: seq<string>)
    requires |ws| > 0
    requires forall i :: 0 <= i < |ws| ==> ws[i] != [] && NoSpace(ws[i])
    ensures Tokenize(Join(ws, " ")) == Tokens(Lower(ws[0]), ws[0], Join(ws[1..], " "))
  {
    WordsJoinRoundTrip(ws);
  }

  /**
   * Extra white space around and between the tokens makes no difference: a
   * line of words with any blank gaps tokenises like the same words
   * separated by single spaces.
   */
  lemma TokenizeIgnoresSpacing(ws: seq<string>, gaps: seq<string>)
    requires |gaps| == |ws| + 1
    requires forall i :: 0 <= i < |ws| ==> ws[i] != [] && NoSpace(ws[i])
    requires forall i :: 0 <= i < |gaps| ==> Blank(gaps[i])
    requires forall i :: 0 < i < |ws| ==> gaps[i] != []
    ensures Tokenize(SpacedLine(ws, gaps)) == Tokenize(Join(ws, " "))
  {
    WordsOfSpacedLine(ws, gaps);
    WordsJoinRoundTrip(ws);
  }

  // ---------------------------------------------------------------- the command table

  datatype Command = Help | Cls | About | ThemeCommand(arg: string) | Neofetch | Empty | Unknown(rawCommand: string)

  /** The `switch` of `handleCommand`, over the lower-cased first token. */
  function ParseCommand(value: string): (r: Command)
    ensures r == Help <==> Tokenize(value).command == "help"
    ensures r == Cls <==> Tokenize(value).command == "cls"
    ensures r == About <==> Tokenize(value).command == "about"
    ensures r == Neofetch <==> Tokenize(value).command == "neofetch"
    ensures r.ThemeCommand? <==> Tokenize(value).command == "theme"
    ensures r == Empty <==> Blank(value)
    ensures r.Unknown? ==> r.rawCommand == Tokenize(value).rawCommand && r.rawCommand != ""
    ensures r.Unknown? ==> Lower(r.rawCommand) !in {"help", "cls", "about", "theme", "neofetch"}
    ensures r.ThemeCommand? ==> r.arg == Tokenize(value).arg && Lower(Tokenize(value).rawCommand) == "theme"
  {
    ParsedTokens(Tokenize(value))
  }

  /** The command named by the tokens of a line. */
  function ParsedTokens(t: Tokens): Command {
    if t.command == "help" then Help
    else if t.command == "cls" then Cls
    else if t.command == "about" then About
    else if t.command == "theme" then ThemeCommand(t.arg)
    else if t.command == "neofetch" then Neofetch
    else if t.command == "" then Empty
    else Unknown(t.rawCommand)
  }

  /** `handleThemeCommand`'s check: the lower-cased argument when it names a theme. */
  function ThemeChoice(arg: string): (r: Option<string>)
    ensures r.Some? <==> Lower(arg) in Themes
    ensures r.Some? ==> r.value == Lower(arg)
  {
    var next := Lower(arg);
    if next == "" || next !in Themes then None else Some(next)
  }

  /** No theme name contains white space. */
  lemma ThemesHaveNoSpace(t: string)
    ensures t in Themes ==> NoSpace(t)
  {
  }

  /** Every theme name, typed as it is, selects itself. */
  lemma ThemeChoiceOfTheme(t: string)
    requires t in Themes
    ensures ThemeChoice(t) == Some(t)
  {
    if t == "green" {
      LowerOfLowercase("green");
    } else if t == "amber" {
      LowerOfLowercase("amber");
    } else {
      LowerOfLowercase("blue");
    }
  }

  /** An argument holding white space never names a theme. */
  lemma SpacedArgumentNamesNoTheme(arg: string)
    requires !NoSpace(arg)
    ensures ThemeChoice(arg).None?
  {
    var i :| 0 <= i < |arg| && IsSpace(arg[i]);
    var next := Lower(arg);
    assert next[i] == arg[i];
    assert !NoSpace(next);
    ThemesHaveNoSpace(next);
  }

  /** "theme" followed by two or more words is a theme command that names no theme. */
  lemma MultiWordThemeRejected(value: string)
    requires |Words(value)| >= 3
    requires Lower(Words(value)[0]) == "theme"
    ensures ParseCommand(value).ThemeCommand?
    ensures ThemeChoice(ParseCommand(value).arg).None?
  {
    var ws := Words(value);
    assert Tokenize(value).arg == Join(ws[1..], " ");
    JoinOfSeveralHasSpace(ws[1..]);
    SpacedArgumentNamesNoTheme(Join(ws[1..], " "));
  }

  /** The word "theme" is a space-free word already in lower case. */
  lemma ThemeWordIsLowercase()
    ensures NoSpace("theme") && Lower("theme") == "theme"
  {
    var w := "theme";
    assert forall i :: 0 <= i < |w| ==> 'a' <= w[i] <= 'z' by {
      assert w[0] == 't' && w[1] == 'h' && w[2] == 'e' && w[3] == 'm' && w[4] == 'e';
    }
    LowercaseWord(w);
  }

  /** "theme" and one more word is the theme command with that word as its argument. */
  lemma ThemeCommandWith(a: string)
    requires a != [] && NoSpace(a)
    ensures ParseCommand("theme " + a) == ThemeCommand(a)
  {
    var value := "theme " + a;
    assert value == "theme" + " " + a;
    ThemeWordIsLowercase();
    TokenizeTwoWords("theme", a);
    assert Tokenize(value) == Tokens("theme", "theme", a);
  }

  /** A single word, typed in any case, is tokenised as the command word with no argument. */
  lemma TokenizeOneWord(w: string)
    requires w != [] && NoSpace(w)
    ensures Tokenize(w) == Tokens(Lower(w), w, "")
  {
    TokenizeOfWords([w]);
    assert Join([w], " ") == w;
    assert Join([w][1..], " ") == "";
  }

  /** Two words separated by one space are tokenised as a command word and its argument. */
  lemma TokenizeTwoWords(w: string, a: string)
    requires w != [] && NoSpace(w) && a != [] && NoSpace(a)
    ensures Tokenize(w + " " + a) == Tokens(Lower(w), w, a)
  {
    TokenizeOfWords([w, a]);
    assert Join([w, a], " ") == w + " " + a;
    assert [w, a][1..] == [a];
    assert Join([a], " ") == a;
  }

  // ---------------------------------------------------------------- neofetch

  function Max(a: int, b: int): int {
    if a >= b then a else b
  }

  /** Line `i` of the two-column `neofetch` output. */
  function NeofetchLine(logo: seq<string>, info: seq<string>, i: nat): string
    requires i < Max(|logo|, |info|)
  {
    if i < |logo| then PadEnd(logo[i], LogoColumn) + (if i < |info| then info[i] else "")
    else Spaces(LogoColumn) + info[i]
  }

  /** The first `n` lines of the `neofetch` output, in the order the two loops print them. */
  function NeofetchPrefix(logo: seq<string>, info: seq<string>, n: nat): (lines: seq<string>)
    requires n <= Max(|logo|, |info|)
    ensures |lines| == n
  {
    if n == 0 then [] else NeofetchPrefix(logo, info, n - 1) + [NeofetchLine(logo, info, n - 1)]
  }

  /** `printNeofetch`'s lines: the logo column padded beside the information column. */
  function NeofetchLines(logo: seq<string>, info: seq<string>): (lines: seq<string>)
    ensures |lines| == Max(|logo|, |info|)
  {
    NeofetchPrefix(logo, info, Max(|logo|, |info|))
  }

  /** Line `i` of the output printed so far is line `i` of the layout, whatever was printed after it. */
  lemma {:induction false} NeofetchPrefixAt(logo: seq<string>, info: seq<string>, n: nat, i: nat)
    requires i < n <= Max(|logo|, |info|)
    ensures NeofetchPrefix(logo, info, n)[i] == NeofetchLine(logo, info, i)
    decreases n
  {
    if i < n - 1 {
      NeofetchPrefixAt(logo, info, n - 1, i);
    }
  }

  /**
   * The layout of the `neofetch` output: a logo line is kept whole (never
   * truncated) and padded with spaces to at least 24 columns, and the
   * information text follows right after it; below the logo each line is 24
   * spaces and then the information text.
   */
  lemma NeofetchLayout(logo: seq<string>, info: seq<string>, i: nat)
    requires i < Max(|logo|, |info|)
    ensures NeofetchLines(logo, info)[i] == NeofetchLine(logo, info, i)
    ensures var line, column := NeofetchLines(logo, info)[i], if i < |logo| then Max(|logo[i]|, LogoColumn) else LogoColumn;
      && |line| >= LogoColumn
      && (i < |logo| ==> line[..|logo[i]|] == logo[i])
      && (forall k :: (if i < |logo| then |logo[i]| else 0) <= k < column ==> line[k] == ' ')
      && line[column..] == (if i < |info| then info[i] else "")
  {
    var line := NeofetchLines(logo, info)[i];
    NeofetchPrefixAt(logo, info, Max(|logo|, |info|), i);
    if i < |logo| {
      var padded := PadEnd(logo[i], LogoColumn);
      assert line == padded + (if i < |info| then info[i] else "");
      assert line[..|logo[i]|] == padded[..|logo[i]|];
    }
  }

  /** With the terminal's own logo and information, `neofetch` prints twelve lines, the last four without logo. */
  lemma NeofetchOutputSize(theme: string)
    ensures |NeofetchLines(Logo, Info(theme))| == 12
    ensures forall i :: 8 <= i < 12 ==> NeofetchLines(Logo, Info(theme))[i] == Spaces(LogoColumn) + Info(theme)[i]
  {
    forall i | 8 <= i < 12 {
      NeofetchPrefixAt(Logo, Info(theme), 12, i);
    }
  }

  // ---------------------------------------------------------------- the terminal's state

  /**
   * What the terminal shows and remembers: the output lines, the document's
   * `data-theme`, the theme buttons in document order and the input field.
   */
  datatype TerminalState = TerminalState(log: seq<Line>, theme: string, buttons: seq<ThemeButton>, input: string)

  /** A button after `setTheme(t)`: pressed exactly when it is the button for `t`. */
  function Pressed(b: ThemeButton, t: string): (r: ThemeButton)
    ensures r.dataTheme == b.dataTheme
    ensures r.ariaPressed == "true" <==> b.dataTheme == t
    ensures r.ariaPressed == "true" || r.ariaPressed == "false"
  {
    b.(ariaPressed := if b.dataTheme == t then "true" else "false")
  }

  /** `setTheme`: a name outside the theme set is ignored. */
  function ThemeSet(s: TerminalState, t: string): TerminalState {
    if t !in Themes then s
    else s.(theme := t, buttons := seq(|s.buttons|, i requires 0 <= i < |s.buttons| => Pressed(s.buttons[i], t)))
  }

  /** `handleThemeCommand`: select and confirm a named theme, or print the usage line. */
  function ThemeCommandHandled(s: TerminalState, arg: string): TerminalState {
    match ThemeChoice(arg)
    case None => s.(log := s.log + [Line(UsageText, NoGlow)])
    case Some(t) =>
      var themed := ThemeSet(s, t);
      themed.(log := themed.log + [Line(ThemeSetPrefix + t, NoGlow)])
  }

  /** `handleCommand`, for every command of the table. */
  function CommandHandled(s: TerminalState, value: string): TerminalState {
    match ParseCommand(value)
    case Help => s.(log := s.log + Plain(HelpLines))
    case Cls => s.(log := [HintLine])
    case About => s.(log := s.log + Plain(AboutLines))
    case ThemeCommand(arg) => ThemeCommandHandled(s, arg)
    case Neofetch => s.(log := s.log + Plain(NeofetchLines(Logo, Info(s.theme))))
    case Empty => s
    case Unknown(rawCommand) => s.(log := s.log + [Line(UnknownPrefix + rawCommand, NoGlow)])
  }

  /** The form's `submit` handler: a blank input is ignored; otherwise echo it after the prompt, run it, clear the field. */
  function Submitted(s: TerminalState, prompt: string): TerminalState {
    if Blank(s.input) then s
    else
      var echoed := s.(log := s.log + [Line(prompt + " " + s.input, NoGlow)]);
      CommandHandled(echoed, s.input).(input := "")
  }

  /** Start-up: select the markup's theme (or green when it names none), then the boot lines and the hint. */
  function Started(s: TerminalState): TerminalState {
    var themed := ThemeSet(s, if s.theme == "" then DefaultTheme else s.theme);
    themed.(log := themed.log + Plain(BootLines) + [HintLine])
  }

  // ---------------------------------------------------------------- properties of the state steps

  /**
   * After `setTheme` with a known theme, the document shows that theme and
   * exactly the buttons for it are pressed; the buttons themselves stay the
   * same and in the same order. An unknown name changes nothing.
   */
  lemma ThemeSetPressesExactlyItsButtons(s: TerminalState, t: string)
    ensures var r := ThemeSet(s, t);
      && r.log == s.log && r.input == s.input && |r.buttons| == |s.buttons|
      && (t !in Themes ==> r == s)
      && (t in Themes ==>
            && r.theme == t
            && forall i :: 0 <= i < |s.buttons| ==>
                 && r.buttons[i].dataTheme == s.buttons[i].dataTheme
                 && (r.buttons[i].ariaPressed == "true" <==> s.buttons[i].dataTheme == t))
  {
  }

  /** Selecting the same theme twice is the same as selecting it once. */
  lemma ThemeSetIdempotent(s: TerminalState, t: string)
    ensures ThemeSet(ThemeSet(s, t), t) == ThemeSet(s, t)
  {
    var once := ThemeSet(s, t);
    if t in Themes {
      var twice := ThemeSet(once, t);
      assert |twice.buttons| == |once.buttons|;
      forall i | 0 <= i < |once.buttons| ensures twice.buttons[i] == once.buttons[i] {
        assert once.buttons[i] == Pressed(s.buttons[i], t);
      }
    }
  }

  /**
   * The output only ever grows, except under `cls`, which leaves exactly the
   * pulsing hint; every command other than cls and the empty one adds at
   * least one line.
   */
  lemma CommandKeepsOrClearsLog(s: TerminalState, value: string)
    ensures var r := CommandHandled(s, value);
      && (ParseCommand(value) == Cls ==> r.log == [HintLine])
      && (ParseCommand(value) != Cls ==> s.log <= r.log)
      && (ParseCommand(value) != Cls && !Blank(value) ==> |r.log| > |s.log|)
      && r.input == s.input
  {
    var t := Tokenize(value);
    if !Blank(value) {
      assert t.command != "" by {
        assert |Lower(t.rawCommand)| == |t.rawCommand|;
      }
    }
    match ParseCommand(value)
    case Neofetch =>
      assert |NeofetchLines(Logo, Info(s.theme))| == 12;
    case _ =>
  }

  /**
   * The theme changes only through a `theme` command whose argument,
   * lower-cased, names a theme, and then it becomes that theme; a known theme
   * is therefore never replaced by an unknown one.
   */
  lemma ThemeChangesOnlyByThemeCommand(s: TerminalState, value: string)
    ensures var r := CommandHandled(s, value);
      && (r.theme != s.theme ==>
            ParseCommand(value).ThemeCommand? && r.theme == Lower(ParseCommand(value).arg) && r.theme in Themes)
      && (s.theme in Themes ==> r.theme in Themes)
  {
  }

  /** Every command of the table answers with its own fixed text. */
  lemma CommandAnswers(s: TerminalState, value: string)
    ensures var r := CommandHandled(s, value);
      && (ParseCommand(value) == Help ==> r.log[|s.log|..] == Plain(HelpLines))
      && (ParseCommand(value) == About ==> r.log[|s.log|..] == Plain(AboutLines))
      && (ParseCommand(value) == Neofetch ==> r.log[|s.log|..] == Plain(NeofetchLines(Logo, Info(s.theme))))
      && (ParseCommand(value).ThemeCommand? ==>
            r.log[|s.log|..] == [Line(match ThemeChoice(ParseCommand(value).arg)
                                       case None => UsageText
                                       case Some(t) => ThemeSetPrefix + t, NoGlow)])
      && (ParseCommand(value).Unknown? ==>
            r.log[|s.log|..] == [Line(UnknownPrefix + Tokenize(value).rawCommand, NoGlow)])
  {
  }

  /** An unknown command is reported with the first word exactly as typed, and is none of the table's words in any case. */
  lemma UnknownCommandReportsRawWord(value: string)
    requires ParseCommand(value).Unknown?
    ensures var raw := ParseCommand(value).rawCommand;
      && raw != [] && NoSpace(raw) && raw == Words(value)[0]
      && Lower(raw) !in {"help", "cls", "about", "theme", "neofetch"}
  {
    var t := Tokenize(value);
    assert ParseCommand(value) == ParsedTokens(t);
    assert t.rawCommand != [] by {
      assert |Lower(t.rawCommand)| == |t.rawCommand|;
    }
    TokenizeFirstWord(value);
  }

  /** The raw command word, when there is one, is the first word of the line. */
  lemma TokenizeFirstWord(value: string)
    ensures Tokenize(value).rawCommand != [] ==> Words(value) != [] && Tokenize(value).rawCommand == Words(value)[0]
  {
    WordsEmptyIffBlank(value);
  }

  /**
   * Submitting blank input changes nothing (not even the field). Otherwise
   * the echo of the prompt and the input comes first, the command then runs
   * on the echoed log, and the field is cleared.
   */
  lemma SubmitEchoesThenRuns(s: TerminalState, prompt: string)
    ensures Blank(s.input) ==> Submitted(s, prompt) == s
    ensures !Blank(s.input) ==>
      var echoed := s.log + [Line(prompt + " " + s.input, NoGlow)];
      var r := Submitted(s, prompt);
      && r.input == ""
      && (ParseCommand(s.input) != Cls ==> echoed <= r.log)
      && (ParseCommand(s.input) == Cls ==> r.log == [HintLine])
  {
    if !Blank(s.input) {
      CommandKeepsOrClearsLog(s.(log := s.log + [Line(prompt + " " + s.input, NoGlow)]), s.input);
    }
  }

  /** Submitting a line never takes the terminal out of the theme set. */
  lemma SubmitKeepsThemeValid(s: TerminalState, prompt: string)
    requires s.theme in Themes
    ensures Submitted(s, prompt).theme in Themes
  {
    if !Blank(s.input) {
      ThemeChangesOnlyByThemeCommand(s.(log := s.log + [Line(prompt + " " + s.input, NoGlow)]), s.input);
    }
  }

  /** Submitting a theme command that names a theme echoes it, selects the theme and confirms it. */
  lemma SubmitAcceptedTheme(s: TerminalState, prompt: string, t: string)
    requires ParseCommand(s.input).ThemeCommand? && ThemeChoice(ParseCommand(s.input).arg) == Some(t)
    ensures var r := Submitted(s, prompt);
      && r.theme == t
      && r.log == s.log + [Line(prompt + " " + s.input, NoGlow), Line(ThemeSetPrefix + t, NoGlow)]
      && r.input == ""
  {
    assert !Blank(s.input);
  }

  /** Submitting a theme command that names no theme echoes it and prints the usage line, and nothing else changes. */
  lemma SubmitRejectedTheme(s: TerminalState, prompt: string)
    requires ParseCommand(s.input).ThemeCommand? && ThemeChoice(ParseCommand(s.input).arg).None?
    ensures Submitted(s, prompt) ==
      s.(log := s.log + [Line(prompt + " " + s.input, NoGlow), Line(UsageText, NoGlow)], input := "")
  {
    assert !Blank(s.input);
  }

  /**
   * Typing "theme amber" and then "theme red" (or any theme, then any word
   * that names none): the first selects the theme and says so; the second
   * keeps that theme and prints the usage line.
   */
  lemma ThemeThenRejectedTheme(s: TerminalState, prompt: string, t: string, bad: string)
    requires t in Themes && s.input == "theme " + t
    requires bad != [] && NoSpace(bad) && Lower(bad) !in Themes
    ensures var a := Submitted(s, prompt);
      && a.theme == t
      && a.log == s.log + [Line(prompt + " " + ("theme " + t), NoGlow), Line(ThemeSetPrefix + t, NoGlow)]
      && var b := Submitted(a.(input := "theme " + bad), prompt);
      && b.theme == t
      && b.log == a.log + [Line(prompt + " " + ("theme " + bad), NoGlow), Line(UsageText, NoGlow)]
  {
    ThemesHaveNoSpace(t);
    assert t != [];
    ThemeCommandWith(t);
    ThemeChoiceOfTheme(t);
    SubmitAcceptedTheme(s, prompt, t);
    var a := Submitted(s, prompt);
    ThemeCommandWith(bad);
    SubmitRejectedTheme(a.(input := "theme " + bad), prompt);
  }

  /** The example of amber, then red. */
  lemma AmberThenRed(s: TerminalState, prompt: string)
    requires s.input == "theme amber"
    ensures var a := Submitted(s, prompt);
      && a.theme == "amber"
      && Submitted(a.(input := "theme red"), prompt).theme == "amber"
  {
    assert "theme " + "amber" == "theme amber";
    assert "theme " + "red" == "theme red";
    LowerOfLowercase("red");
    assert "red" !in Themes by {
      assert "red"[0] == 'r';
      assert "green"[0] == 'g' && "amber"[0] == 'a' && "blue"[0] == 'b';
    }
    ThemeThenRejectedTheme(s, prompt, "amber", "red");
  }

  /** After start-up the boot lines and the hint follow the existing output, and the theme is green when the markup named none. */
  lemma StartShowsBootSequence(s: TerminalState)
    ensures var r := Started(s);
      && r.log == s.log + Plain(BootLines) + [HintLine]
      && |r.log| == |s.log| + 8
      && (s.theme == "" ==> r.theme == DefaultTheme)
      && (s.theme in Themes ==> r.theme == s.theme)
  {
  }
}
