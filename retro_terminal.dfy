/**
 * The retro terminal page as the object it is: an output area that lines are
 * appended to (and typed into), the document's theme, the theme buttons whose
 * pressed state follows it, and the input field a submitted line is read from.
 * Every method is specified by the matching step of `TerminalCommands`.
 */
module RetroTerminal {
  import opened Wrappers
  import opened Strings
  import opened TerminalCommands

  /** `!value.trim()`: whether a submitted value is white space only. */
  method IsBlankInput(value: string) returns (blank: bool)
    ensures blank <==> Blank(value)
  {
    blank := Trim(value) == [];
  }

  class Terminal {
    /** The lines of the output element, in order. */
    var log: seq<Line>
    /** The document's `data-theme`. */
    var theme: string
    /** The value of the input field. */
    var input: string
    /** The theme buttons, whose `aria-pressed` attributes change in place. */
    const buttons: array<ThemeButton>
    /** The prompt echoed before each submitted line. */
    const prompt: string

    function State(): TerminalState
      reads this, buttons
    {
      TerminalState(log, theme, buttons[..], input)
    }

    /** The page as loaded: an empty output, the markup's theme and buttons, and the path element's text if there is one. */
    constructor (pathText: Option<string>, markupTheme: string, themeButtons: array<ThemeButton>)
      ensures buttons == themeButtons && prompt == PromptPrefix(pathText)
      ensures State() == TerminalState([], markupTheme, themeButtons[..], "")
    {
      log := [];
      theme := markupTheme;
      input := "";
      buttons := themeButtons;
      prompt := PromptPrefix(pathText);
    }

    /** The user edits the input field. */
    method TypeInput(value: string)
      modifies this
      ensures State() == old(State()).(input := value)
    {
      input := value;
    }

    /** `appendLine`: one more line at the end of the output. */
    method AppendLine(text: string, glow: Glow)
      modifies this
      ensures log == old(log) + [Line(text, glow)]
      ensures theme == old(theme) && input == old(input)
    {
      log := log + [Line(text, glow)];
    }

    /**
     * `typeLine`: an empty line is appended, and on each tick of the typing
     * interval it shows one more character of `text`; `frames` are the texts
     * it shows, tick by tick, from the empty prefix to the whole text.
     */
    method TypeLine(text: string) returns (frames: seq<string>)
      modifies this
      ensures log == old(log) + [Line(text, NoGlow)]
      ensures theme == old(theme) && input == old(input)
      ensures |frames| == |text| + 1
      ensures forall k :: 0 <= k <= |text| ==> frames[k] == text[..k]
    {
      AppendLine("", NoGlow);
      var at := |log| - 1;
      var index := 0;
      frames := [];
      while index <= |text|
        invariant 0 <= index <= |text| + 1
        invariant |log| == at + 1 && log[..at] == old(log)
        invariant log[at] == Line(if index == 0 then "" else text[..index - 1], NoGlow)
        invariant |frames| == index
        invariant forall k :: 0 <= k < index ==> frames[k] == text[..k]
        invariant theme == old(theme) && input == old(input)
      {
        log := log[at := Line(text[..index], NoGlow)];
        frames := frames + [text[..index]];
        index := index + 1;
      }
      assert text[..|text|] == text;
      assert log == log[..at] + [log[at]];
    }

    /** `bootSequence`: the boot lines typed one after another, then the pulsing hint. */
    method BootSequence()
      modifies this
      ensures log == old(log) + Plain(BootLines) + [HintLine]
      ensures theme == old(theme) && input == old(input)
    {
      var i := 0;
      while i < |BootLines|
        invariant 0 <= i <= |BootLines|
        invariant log == old(log) + Plain(BootLines[..i])
        invariant theme == old(theme) && input == old(input)
      {
        var frames := TypeLine(BootLines[i]);
        assert BootLines[..i + 1] == BootLines[..i] + [BootLines[i]];
        PlainAppend(BootLines[..i], BootLines[i]);
        i := i + 1;
      }
      assert BootLines[..|BootLines|] == BootLines;
      AppendLine(HintText, Pulse);
    }

    /** `setTheme`: a known theme becomes the document's, and each button is pressed exactly when it is that theme's. */
    method SetTheme(t: string)
      modifies this, buttons
      ensures State() == ThemeSet(old(State()), t)
    {
      if t !in Themes {
        return;
      }
      theme := t;
      var i := 0;
      while i < buttons.Length
        invariant 0 <= i <= buttons.Length
        invariant forall k :: 0 <= k < i ==> buttons[k] == Pressed(old(buttons[k]), t)
        invariant forall k :: i <= k < buttons.Length ==> buttons[k] == old(buttons[k])
        invariant theme == t && log == old(log) && input == old(input)
      {
        buttons[i] := Pressed(buttons[i], t);
        i := i + 1;
      }
    }

    /** A click on a theme button selects that button's theme. */
    method ClickThemeButton(i: nat)
      requires i < buttons.Length
      modifies this, buttons
      ensures State() == ThemeSet(old(State()), old(buttons[i].dataTheme))
    {
      SetTheme(buttons[i].dataTheme);
    }

    /** Start-up: the markup's theme (green when it names none) is selected, then the boot sequence runs. */
    method Start()
      modifies this, buttons
      ensures State() == Started(old(State()))
    {
      SetTheme(if theme == "" then DefaultTheme else theme);
      BootSequence();
    }

    /** `printHelp`: the help lines, one by one. */
    method PrintHelp()
      modifies this
      ensures log == old(log) + Plain(HelpLines)
      ensures theme == old(theme) && input == old(input)
    {
      var i := 0;
      while i < |HelpLines|
        invariant 0 <= i <= |HelpLines|
        invariant log == old(log) + Plain(HelpLines[..i])
        invariant theme == old(theme) && input == old(input)
      {
        AppendLine(HelpLines[i], NoGlow);
        assert HelpLines[..i + 1] == HelpLines[..i] + [HelpLines[i]];
        PlainAppend(HelpLines[..i], HelpLines[i]);
        i := i + 1;
      }
      assert HelpLines[..|HelpLines|] == HelpLines;
    }

    /** `printAbout`: the three about lines. */
    method PrintAbout()
      modifies this
      ensures log == old(log) + Plain(AboutLines)
      ensures theme == old(theme) && input == old(input)
    {
      AppendLine("Cool Retro Terminal v1.0", NoGlow);
      AppendLine("Simulating CRT experience with ambient flicker", NoGlow);
      AppendLine("Font: IBM Plex Mono", NoGlow);
    }

    /** `printNeofetch`: the logo beside the information column, with the current theme. */
    method PrintNeofetch()
      modifies this
      ensures log == old(log) + Plain(NeofetchLines(Logo, Info(old(theme))))
      ensures theme == old(theme) && input == old(input)
    {
      AppendColumns(Logo, Info(theme));
    }

    /** The two loops of `printNeofetch`: the logo column with the information beside it, then the information below the logo. */
    method AppendColumns(logo: seq<string>, info: seq<string>)
      modifies this
      ensures log == old(log) + Plain(NeofetchLines(logo, info))
      ensures theme == old(theme) && input == old(input)
    {
      AppendLogoColumn(logo, info);
      AppendInfoBelowLogo(logo, info, old(log));
    }

    /** The first loop of `printNeofetch`: each logo line padded to the column, then its information line or nothing. */
    method AppendLogoColumn(logo: seq<string>, info: seq<string>)
      modifies this
      ensures |logo| <= Max(|logo|, |info|)
      ensures log == old(log) + Plain(NeofetchPrefix(logo, info, |logo|))
      ensures theme == old(theme) && input == old(input)
    {
      ghost var before := log;
      var index := 0;
      while index < |logo|
        invariant 0 <= index <= |logo|
        invariant log == before + Plain(NeofetchPrefix(logo, info, index))
        invariant theme == old(theme) && input == old(input)
      {
        ghost var done := NeofetchPrefix(logo, info, index);
        ghost var next := NeofetchLine(logo, info, index);
        AppendBesideLogo(logo, info, index);
        PlainAppend(done, next);
        assert NeofetchPrefix(logo, info, index + 1) == done + [next];
        index := index + 1;
      }
    }

    /** One line of the first loop: the logo line padded to the column, then the information line of the same index or nothing. */
    method AppendBesideLogo(logo: seq<string>, info: seq<string>, index: nat)
      requires index < |logo|
      modifies this
      ensures log == old(log) + [Line(NeofetchLine(logo, info, index), NoGlow)]
      ensures theme == old(theme) && input == old(input)
    {
      var infoLine := if index < |info| then info[index] else "";
      AppendLine(PadEnd(logo[index], LogoColumn) + infoLine, NoGlow);
    }

    /** The second loop of `printNeofetch`: the information lines past the logo, indented by the column. */
    method AppendInfoBelowLogo(logo: seq<string>, info: seq<string>, ghost before: seq<Line>)
      requires |logo| <= Max(|logo|, |info|)
      requires log == before + Plain(NeofetchPrefix(logo, info, |logo|))
      modifies this
      ensures log == before + Plain(NeofetchLines(logo, info))
      ensures theme == old(theme) && input == old(input)
    {
      var i := |logo|;
      while i < |info|
        invariant |logo| <= i <= Max(|logo|, |info|)
        invariant log == before + Plain(NeofetchPrefix(logo, info, i))
        invariant theme == old(theme) && input == old(input)
      {
        AppendLine(Spaces(LogoColumn) + info[i], NoGlow);
        PlainAppend(NeofetchPrefix(logo, info, i), NeofetchLine(logo, info, i));
        i := i + 1;
      }
    }

    /** `clearScreen`: the output is emptied and the hint shown again. */
    method ClearScreen()
      modifies this
      ensures log == [HintLine]
      ensures theme == old(theme) && input == old(input)
    {
      log := [];
      AppendLine(HintText, Pulse);
    }

    /** `handleThemeCommand`. */
    method HandleThemeCommand(arg: string)
      modifies this, buttons
      ensures State() == ThemeCommandHandled(old(State()), arg)
    {
      var nextTheme := Lower(arg);
      if nextTheme == "" || nextTheme !in Themes {
        AppendLine(UsageText, NoGlow);
        return;
      }
      SetTheme(nextTheme);
      AppendLine(ThemeSetPrefix + nextTheme, NoGlow);
    }

    /** `handleCommand`: the first word, lower-cased, picks the command; the rest is its argument. */
    method HandleCommand(value: string)
      modifies this, buttons
      ensures State() == CommandHandled(old(State()), value)
    {
      var tokens := Tokenize(value);
      var command := tokens.command;
      assert ParseCommand(value) == ParsedTokens(tokens);
      if command == "help" {
        PrintHelp();
      } else if command == "cls" {
        ClearScreen();
      } else if command == "about" {
        PrintAbout();
      } else if command == "theme" {
        HandleThemeCommand(tokens.arg);
      } else if command == "neofetch" {
        PrintNeofetch();
      } else if command == "" {
      } else {
        AppendLine(UnknownPrefix + tokens.rawCommand, NoGlow);
      }
    }

    /** The form's `submit` handler. */
    method Submit()
      modifies this, buttons
      ensures State() == Submitted(old(State()), prompt)
    {
      ghost var before := State();
      var value := input;
      var blank := IsBlankInput(value);
      if blank {
        return;
      }
      AppendLine(prompt + " " + value, NoGlow);
      ghost var echoed := State();
      assert echoed == before.(log := before.log + [Line(prompt + " " + value, NoGlow)]);
      assert Submitted(before, prompt) == CommandHandled(echoed, value).(input := "");
      HandleCommand(value);
      input := "";
    }
  }
}
