/**
 * The portfolio's terminal: a command interpreter over a history of entries,
 * an unlock flag that opens the secret commands, and a Konami-code detector
 * listening to every key press.
 */
module Shell {
  import opened Wrappers
  import opened Decimal
  import opened JsText
  import opened TerminalText
  import Resume

  /**
   * One line of the history: the input as typed and what the command
   * answered. A fixed answer is kept as the name of its message; `Render`
   * gives the text the terminal shows for it.
   */
  datatype Entry = Entry(command: string, output: Output)

  /** The fixed answers of the commands table; a pick is the random draw that chose a joke, quote or answer. */
  datatype Message =
    | HelpText | AboutText | SkillsText | ProjectsText | ContactText | DownloadedText
    | SudoText | HackText | MatrixEnterText | MatrixExitText | KonamiText
    | SecretsMenuText | SecretsLockedText | LockedText | AnimationsText
    | SnakeLaunchText | MemoryLaunchText | JokeText(pick: nat) | QuoteText(pick: nat)
    | MorseUsageText | WeatherText | CoffeeText | HackNasaText | HeadsText | TailsText
    | AnswerText(pick: nat) | AsciiArtText | WhoamiText

  /** An answer: a fixed message, or text built from the input line. */
  datatype Output = Fixed(message: Message) | Printed(text: string)

  /** The text of a fixed message. */
  function MessageText(m: Message): string {
    match m
    case HelpText => HELP_TEXT
    case AboutText => AboutAnswer()
    case SkillsText => SkillsAnswer()
    case ProjectsText => ProjectsAnswer()
    case ContactText => ContactAnswer()
    case DownloadedText => DOWNLOADED
    case SudoText => SUDO_TEXT
    case HackText => HACK_TEXT
    case MatrixEnterText => MATRIX_ENTER
    case MatrixExitText => MATRIX_EXIT
    case KonamiText => KONAMI_TEXT
    case SecretsMenuText => SECRETS_MENU
    case SecretsLockedText => SECRETS_LOCKED
    case LockedText => LOCKED
    case AnimationsText => ANIMATIONS_TEXT
    case SnakeLaunchText => SNAKE_LAUNCH
    case MemoryLaunchText => MEMORY_LAUNCH
    case JokeText(pick) => JokeAt(pick)
    case QuoteText(pick) => QuoteAt(pick)
    case MorseUsageText => MORSE_USAGE
    case WeatherText => WEATHER_TEXT
    case CoffeeText => COFFEE_TEXT
    case HackNasaText => HACK_NASA_TEXT
    case HeadsText => HEADS
    case TailsText => TAILS
    case AnswerText(pick) => AnswerAt(pick)
    case AsciiArtText => ASCII_ART
    case WhoamiText => WHOAMI_TEXT
  }

  /** `jokes[Math.floor(Math.random() * jokes.length)]`, the draw reduced to an index. */
  function JokeAt(pick: nat): (r: string)
    ensures r in JOKES
  {
    JOKES[pick % |JOKES|]
  }

  function QuoteAt(pick: nat): (r: string)
    ensures r in QUOTES
  {
    QUOTES[pick % |QUOTES|]
  }

  function AnswerAt(pick: nat): (r: string)
    ensures r in ANSWERS
  {
    ANSWERS[pick % |ANSWERS|]
  }

  /** The text shown for an answer. */
  function Render(o: Output): string {
    match o
    case Fixed(m) => MessageText(m)
    case Printed(text) => text
  }

  // ---------------------------------------------------------------------
  // The commands table
  // ---------------------------------------------------------------------

  datatype Cmd =
    | Help | About | Skills | Projects | Contact | DownloadResume | Clear
    | Sudo | Hack | Matrix | Konami | Secrets | Animations | Snake | Memory
    | Joke | Quote | Morse | Weather | Coffee | HackNasa | FlipCoin | RollDice
    | Magic8Ball | AsciiArt | Timer

  /** The key of each entry of the commands table. */
  function Name(c: Cmd): string {
    match c
    case Help => "help"
    case About => "about"
    case Skills => "skills"
    case Projects => "projects"
    case Contact => "contact"
    case DownloadResume => "download-resume"
    case Clear => "clear"
    case Sudo => "sudo"
    case Hack => "hack"
    case Matrix => "matrix"
    case Konami => "konami"
    case Secrets => "secrets"
    case Animations => "animations"
    case Snake => "snake"
    case Memory => "memory"
    case Joke => "joke"
    case Quote => "quote"
    case Morse => "morse"
    case Weather => "weather"
    case Coffee => "coffee"
    case HackNasa => "hack-nasa"
    case FlipCoin => "flip-coin"
    case RollDice => "roll-dice"
    case Magic8Ball => "magic8ball"
    case AsciiArt => "ascii-art"
    case Timer => "timer"
  }

  /**
   * The only entry whose key could be a word of this length, first and last
   * letter: no two keys of the table share all three.
   */
  function Candidate(n: nat, first: char, last: char): Option<Cmd> {
    if n == 4 then
      if first == 'h' && last == 'p' then Some(Help)
      else if first == 's' && last == 'o' then Some(Sudo)
      else if first == 'h' && last == 'k' then Some(Hack)
      else if first == 'j' && last == 'e' then Some(Joke)
      else None
    else if n == 5 then
      if first == 'a' && last == 't' then Some(About)
      else if first == 'c' && last == 'r' then Some(Clear)
      else if first == 's' && last == 'e' then Some(Snake)
      else if first == 'q' && last == 'e' then Some(Quote)
      else if first == 'm' && last == 'e' then Some(Morse)
      else if first == 't' && last == 'r' then Some(Timer)
      else None
    else if n == 6 then
      if first == 's' && last == 's' then Some(Skills)
      else if first == 'm' && last == 'x' then Some(Matrix)
      else if first == 'k' && last == 'i' then Some(Konami)
      else if first == 'm' && last == 'y' then Some(Memory)
      else if first == 'c' && last == 'e' then Some(Coffee)
      else None
    else if n == 7 then
      if first == 'c' && last == 't' then Some(Contact)
      else if first == 's' && last == 's' then Some(Secrets)
      else if first == 'w' && last == 'r' then Some(Weather)
      else None
    else if n == 8 then
      if first == 'p' && last == 's' then Some(Projects)
      else None
    else if n == 9 then
      if first == 'h' && last == 'a' then Some(HackNasa)
      else if first == 'f' && last == 'n' then Some(FlipCoin)
      else if first == 'r' && last == 'e' then Some(RollDice)
      else if first == 'a' && last == 't' then Some(AsciiArt)
      else None
    else if n == 10 then
      if first == 'a' && last == 's' then Some(Animations)
      else if first == 'm' && last == 'l' then Some(Magic8Ball)
      else None
    else if n == 15 then
      if first == 'd' && last == 'e' then Some(DownloadResume)
      else None
    else None
  }

  /**
   * `commands[command]`: the entry whose key is the command word, if any,
   * found by its length and end letters and then compared in full.
   */
  function Lookup(command: string): (r: Option<Cmd>)
    ensures r.Some? ==> Name(r.value) == command
  {
    if |command| == 0 then None
    else match Candidate(|command|, command[0], command[|command| - 1])
      case Some(c) => if Name(c) == command then Some(c) else None
      case None => None
  }

  /** Every entry of the table is found under its own key, so no command word is unknown by mistake. */
  lemma LookupName(c: Cmd)
    ensures Lookup(Name(c)) == Some(c)
  {
  }

  /** A command word is unknown exactly when no entry has it as its key. */
  lemma LookupNone(command: string)
    ensures Lookup(command).None? <==> forall c: Cmd :: Name(c) != command
  {
    if Lookup(command).None? {
      forall c: Cmd ensures Name(c) != command {
        LookupName(c);
      }
    }
  }

  /** The secret commands, which answer the lock message until the easter egg is found. */
  predicate Gated(c: Cmd) {
    match c
    case Animations | Snake | Memory | Joke | Quote | Morse | Weather | Coffee
       | HackNasa | FlipCoin | RollDice | Magic8Ball | AsciiArt | Timer => true
    case _ => false
  }

  // ---------------------------------------------------------------------
  // morse and timer
  // ---------------------------------------------------------------------

  /** The morse table: the 26 letters and the space. */
  function MorseCode(c: char): Option<string> {
    match c
    case 'a' => Some(".-")   case 'b' => Some("-...") case 'c' => Some("-.-.") case 'd' => Some("-..")
    case 'e' => Some(".")    case 'f' => Some("..-.") case 'g' => Some("--.")  case 'h' => Some("....")
    case 'i' => Some("..")   case 'j' => Some(".---") case 'k' => Some("-.-")  case 'l' => Some(".-..")
    case 'm' => Some("--")   case 'n' => Some("-.")   case 'o' => Some("---")  case 'p' => Some(".--.")
    case 'q' => Some("--.-") case 'r' => Some(".-.")  case 's' => Some("...")  case 't' => Some("-")
    case 'u' => Some("..-")  case 'v' => Some("...-") case 'w' => Some(".--")  case 'x' => Some("-..-")
    case 'y' => Some("-.--") case 'z' => Some("--..") case ' ' => Some("/")
    case _ => None
  }

  /** `morseCode[char] || char`: the code of a character, or the character itself when it has none. */
  function MorseOf(c: char): (r: string)
    ensures ' ' !in r && |r| > 0
  {
    match MorseCode(c)
    case Some(code) => code
    case None => [c]
  }

  /** The code of every character, joined by single spaces. */
  function MorseEncode(text: string): string {
    Join(seq(|text|, i requires 0 <= i < |text| => MorseOf(text[i])), " ")
  }

  /**
   * The character a piece of morse code stands for, reading back the table;
   * the codes are tried by length and first symbol.
   */
  function MorseDecode(piece: string): Option<char> {
    if |piece| == 1 then
      if piece == "-" then Some('t')
      else if piece == "." then Some('e')
      else if piece == "/" then Some(' ')
      else None
    else if |piece| == 2 then
      if piece == "--" then Some('m')
      else if piece == "-." then Some('n')
      else if piece == ".-" then Some('a')
      else if piece == ".." then Some('i')
      else None
    else if |piece| == 3 then
      if piece[0] == '-' then
        if piece == "-.." then Some('d')
        else if piece == "--." then Some('g')
        else if piece == "-.-" then Some('k')
        else if piece == "---" then Some('o')
        else None
      else if piece[0] == '.' then
        if piece == ".-." then Some('r')
        else if piece == "..." then Some('s')
        else if piece == "..-" then Some('u')
        else if piece == ".--" then Some('w')
        else None
      else None
    else if |piece| == 4 then
      if piece[0] == '-' then
        if piece == "-..." then Some('b')
        else if piece == "-.-." then Some('c')
        else if piece == "--.-" then Some('q')
        else if piece == "-..-" then Some('x')
        else if piece == "-.--" then Some('y')
        else if piece == "--.." then Some('z')
        else None
      else if piece[0] == '.' then
        if piece == "..-." then Some('f')
        else if piece == "...." then Some('h')
        else if piece == ".---" then Some('j')
        else if piece == ".-.." then Some('l')
        else if piece == ".--." then Some('p')
        else if piece == "...-" then Some('v')
        else None
      else None
    else None
  }

  /** No two characters of the table share a code, so a coded character reads back as itself. */
  lemma MorseDecodeCode(c: char)
    requires MorseCode(c).Some?
    ensures MorseDecode(MorseCode(c).value) == Some(c)
  {
    if c <= 'e' {
      MorseDecodeFirst(c);
    } else if c <= 'j' {
      MorseDecodeSecond(c);
    } else if c <= 'o' {
      MorseDecodeThird(c);
    } else if c <= 't' {
      MorseDecodeFourth(c);
    } else {
      MorseDecodeFifth(c);
    }
  }

  lemma MorseDecodeFirst(c: char)
    requires MorseCode(c).Some? && c <= 'e'
    ensures MorseDecode(MorseCode(c).value) == Some(c)
  {
    if c == ' ' {
      assert MorseDecode("/") == Some(' ');
    } else if c == 'a' {
      assert MorseDecode(".-") == Some('a');
    } else if c == 'b' {
      assert MorseDecode("-...") == Some('b');
    } else if c == 'c' {
      assert MorseDecode("-.-.") == Some('c');
    } else if c == 'd' {
      assert MorseDecode("-..") == Some('d');
    } else {
      assert MorseDecode(".") == Some('e');
    }
  }

  lemma MorseDecodeSecond(c: char)
    requires 'f' <= c <= 'j'
    ensures MorseDecode(MorseCode(c).value) == Some(c)
  {
    if c == 'f' {
      assert MorseDecode("..-.") == Some('f');
    } else if c == 'g' {
      assert MorseDecode("--.") == Some('g');
    } else if c == 'h' {
      assert MorseDecode("....") == Some('h');
    } else if c == 'i' {
      assert MorseDecode("..") == Some('i');
    } else {
      assert MorseDecode(".---") == Some('j');
    }
  }

  lemma MorseDecodeThird(c: char)
    requires 'k' <= c <= 'o'
    ensures MorseDecode(MorseCode(c).value) == Some(c)
  {
    if c == 'k' {
      assert MorseDecode("-.-") == Some('k');
    } else if c == 'l' {
      assert MorseDecode(".-..") == Some('l');
    } else if c == 'm' {
      assert MorseDecode("--") == Some('m');
    } else if c == 'n' {
      assert MorseDecode("-.") == Some('n');
    } else {
      assert MorseDecode("---") == Some('o');
    }
  }

  lemma MorseDecodeFourth(c: char)
    requires 'p' <= c <= 't'
    ensures MorseDecode(MorseCode(c).value) == Some(c)
  {
    if c == 'p' {
      assert MorseDecode(".--.") == Some('p');
    } else if c == 'q' {
      assert MorseDecode("--.-") == Some('q');
    } else if c == 'r' {
      assert MorseDecode(".-.") == Some('r');
    } else if c == 's' {
      assert MorseDecode("...") == Some('s');
    } else {
      assert MorseDecode("-") == Some('t');
    }
  }

  lemma MorseDecodeFifth(c: char)
    requires 'u' <= c <= 'z'
    ensures MorseDecode(MorseCode(c).value) == Some(c)
  {
    if c == 'u' {
      assert MorseDecode("..-") == Some('u');
    } else if c == 'v' {
      assert MorseDecode("...-") == Some('v');
    } else if c == 'w' {
      assert MorseDecode(".--") == Some('w');
    } else if c == 'x' {
      assert MorseDecode("-..-") == Some('x');
    } else if c == 'y' {
      assert MorseDecode("-.--") == Some('y');
    } else {
      assert MorseDecode("--..") == Some('z');
    }
  }

  /**
   * The output of `morse` splits at its spaces into exactly one piece per
   * character of the text, each the character's code or the character itself.
   */
  lemma MorsePieces(text: string)
    requires |text| > 0
    ensures Split(MorseEncode(text), ' ') == seq(|text|, i requires 0 <= i < |text| => MorseOf(text[i]))
  {
    var pieces := seq(|text|, i requires 0 <= i < |text| => MorseOf(text[i]));
    SplitJoin(pieces, ' ');
  }

  /** Text made of letters and spaces is recovered from its morse code. */
  lemma MorseRoundTrip(text: string)
    requires |text| > 0 && forall i :: 0 <= i < |text| ==> MorseCode(text[i]).Some?
    ensures var pieces := Split(MorseEncode(text), ' ');
      |pieces| == |text| && forall i :: 0 <= i < |text| ==> MorseDecode(pieces[i]) == Some(text[i])
  {
    MorsePieces(text);
    forall i | 0 <= i < |text| ensures MorseDecode(MorseOf(text[i])) == Some(text[i]) {
      MorseDecodeCode(text[i]);
    }
  }

  /** `parseInt(seconds) || 10`: the parsed number unless it is `NaN`, `0` or `-0`. */
  function TimerSeconds(arg: string): (sec: int)
    ensures sec != 0
    ensures ParseInt(arg).Truthy() ==> sec == ParseInt(arg).Value()
    ensures !ParseInt(arg).Truthy() ==> sec == 10
  {
    var p := ParseInt(arg);
    if p.Truthy() then p.Value() else 10
  }

  /** A positive count of seconds is taken as given. */
  lemma TimerOfCount(n: nat)
    requires n > 0
    ensures TimerSeconds(NatToString(n)) == n
  {
    ParseIntOfNatString(n);
  }

  /** No argument, or zero, means ten seconds. */
  lemma TimerDefault()
    ensures TimerSeconds("") == 10 && TimerSeconds("0") == 10
  {
    ParseIntNaN("");
    ParseIntOfNatString(0);
    assert NatToString(0) == "0";
  }

  // ---------------------------------------------------------------------
  // The state and one command
  // ---------------------------------------------------------------------

  /**
   * The component's state: the input box, the history, the unlock flag, the
   * matrix flag, which game is open, and the detector's position in the code.
   */
  datatype State = State(
    input: string,
    history: seq<Entry>,
    easterEggFound: bool,
    matrixMode: bool,
    showSnakeGame: bool,
    showMemoryGame: bool,
    konamiIndex: nat)

  /** What a command answers, and the state it leaves behind. */
  datatype Reply = Reply(output: Output, next: State)

  /** The games open only once unlocked, and the detector's index stays inside the code. */
  predicate Inv(s: State) {
    && s.konamiIndex < |KONAMI_CODE|
    && (s.showSnakeGame || s.showMemoryGame ==> s.easterEggFound)
  }

  function Initial(): (s: State)
    ensures Inv(s) && !s.easterEggFound && |s.history| == 2
  {
    State("", [Entry("whoami", Fixed(WhoamiText)), Entry("skills", Fixed(SkillsText))], false, false, false, false, 0)
  }

  function SkillsAnswer(): string {
    Join(Resume.SKILLS, ", ")
  }

  function AboutAnswer(): string {
    Join(Resume.ABOUT, "\n\n")
  }

  /** One project: its number from one, title, technologies and description. */
  function ProjectLine(i: nat, p: Resume.Project): string {
    NatToString(i + 1) + ". " + p.title + " — " + Join(p.tech, ", ") + "\n   " + p.description
  }

  function ProjectsAnswer(): string {
    Join(seq(|Resume.PROJECTS|, i requires 0 <= i < |Resume.PROJECTS| => ProjectLine(i, Resume.PROJECTS[i])), "\n\n")
  }

  function ContactAnswer(): string {
    "Email: " + Resume.EMAIL + "\nLocation: " + Resume.LOCATION + "\nGitHub: " + Resume.GITHUB
  }

  /** `morse`: the usage line without text, otherwise the code of the lower-cased text. */
  function MorseAnswer(args: string): Output {
    if args == "" then Fixed(MorseUsageText) else Printed("📡 Morse: " + MorseEncode(Lower(args)))
  }

  /** `roll-dice`: a number from one to six. */
  function DiceAnswer(rand: nat): Output {
    Printed("🎲 You rolled a " + NatToString(rand % 6 + 1) + "!")
  }

  /** The die shows a single digit from one to six. */
  lemma DiceFace(rand: nat)
    ensures var face := rand % 6 + 1;
      && DiceAnswer(rand) == Printed("🎲 You rolled a " + [DigitChar(face)] + "!")
      && 1 <= DigitValue(DigitChar(face)) <= 6
  {
    var face := rand % 6 + 1;
    assert NatToString(face) == [DigitChar(face)];
  }

  function TimerAnswer(args: string): Output {
    Printed("⏰ Timer set for " + IntToString(TimerSeconds(args)) + " seconds! (Feature coming soon)")
  }

  /**
   * One entry of the commands table run with its argument text. `rand`
   * stands for `Math.random()`: the joke, quote and answer are picked by it,
   * and so are the coin and the die.
   */
  function Execute(s: State, c: Cmd, args: string, rand: nat): (r: Reply)
    ensures r.next.input == s.input && r.next.konamiIndex == s.konamiIndex
    ensures c != Clear ==> r.next.history == s.history
  {
    if Gated(c) && !s.easterEggFound then Reply(Fixed(LockedText), s)
    else match c
      case Help => Reply(Fixed(HelpText), s)
      case About => Reply(Fixed(AboutText), s)
      case Skills => Reply(Fixed(SkillsText), s)
      case Projects => Reply(Fixed(ProjectsText), s)
      case Contact => Reply(Fixed(ContactText), s)
      case DownloadResume => Reply(Fixed(DownloadedText), s)
      case Clear => Reply(Printed(""), s.(history := []))
      case Sudo => Reply(Fixed(SudoText), s)
      case Hack => Reply(Fixed(HackText), s)
      case Matrix => Reply(Fixed(if s.matrixMode then MatrixExitText else MatrixEnterText), s.(matrixMode := !s.matrixMode))
      case Konami => Reply(Fixed(KonamiText), s.(easterEggFound := true))
      case Secrets => Reply(Fixed(if s.easterEggFound then SecretsMenuText else SecretsLockedText), s)
      case Animations => Reply(Fixed(AnimationsText), s)
      case Snake => Reply(Fixed(SnakeLaunchText), s.(showSnakeGame := true))
      case Memory => Reply(Fixed(MemoryLaunchText), s.(showMemoryGame := true))
      case Joke => Reply(Fixed(JokeText(rand)), s)
      case Quote => Reply(Fixed(QuoteText(rand)), s)
      case Morse => Reply(MorseAnswer(args), s)
      case Weather => Reply(Fixed(WeatherText), s)
      case Coffee => Reply(Fixed(CoffeeText), s)
      case HackNasa => Reply(Fixed(HackNasaText), s)
      case FlipCoin => Reply(Fixed(if rand % 2 == 0 then HeadsText else TailsText), s)
      case RollDice => Reply(DiceAnswer(rand), s)
      case Magic8Ball => Reply(Fixed(AnswerText(rand)), s)
      case AsciiArt => Reply(Fixed(AsciiArtText), s)
      case Timer => Reply(TimerAnswer(args), s)
  }

  /** The command word and the argument text of an input line. */
  datatype Parsed = Parsed(command: string, args: string)

  /** `cmd.trim().toLowerCase().split(' ')`: the first token is the command, the rest rejoined by spaces. */
  function Parse(cmd: string): Parsed {
    var tokens := Split(Lower(Trim(cmd)), ' ');
    Parsed(tokens[0], Join(tokens[1..], " "))
  }

  /** The command word is the trimmed, lower-cased line up to its first space, the arguments all after it. */
  lemma ParseAtFirstSpace(cmd: string)
    ensures var line := Lower(Trim(cmd)); var i := IndexOf(line, ' ');
      && Parse(cmd).command == line[..i]
      && Parse(cmd).args == (if i < |line| then line[i + 1..] else "")
      && ' ' !in Parse(cmd).command
  {
    SplitAtFirst(Lower(Trim(cmd)), ' ');
  }

  function NotFound(cmd: string): Output {
    Printed("Command not found: " + cmd + ". Type 'help' for available commands.")
  }

  /** `handleCommand(cmd)`: run the command and record it, except that `clear` records nothing. */
  function Command(s: State, cmd: string, rand: nat): State {
    var p := Parse(cmd);
    match Lookup(p.command)
    case None => s.(history := s.history + [Entry(cmd, NotFound(cmd))])
    case Some(c) =>
      var r := Execute(s, c, p.args, rand);
      if c == Clear then r.next else r.next.(history := r.next.history + [Entry(cmd, r.output)])
  }

  /**
   * The key listener is registered again whenever the unlock flag changes,
   * and the new registration starts its detector from the beginning.
   */
  function Settle(before: State, after: State): (r: State)
    ensures r == after.(konamiIndex := r.konamiIndex)
    ensures r.konamiIndex == if before.easterEggFound != after.easterEggFound then 0 else after.konamiIndex
  {
    if before.easterEggFound != after.easterEggFound then after.(konamiIndex := 0) else after
  }

  /** A command as the terminal runs it: the command, then the listener update it causes. */
  function Handle(s: State, cmd: string, rand: nat): State {
    Settle(s, Command(s, cmd, rand))
  }

  /** An unknown command records exactly one entry naming the line as typed, and changes nothing else. */
  lemma UnknownCommand(s: State, cmd: string, rand: nat)
    requires Lookup(Parse(cmd).command).None?
    ensures Handle(s, cmd, rand) == s.(history := s.history + [Entry(cmd, NotFound(cmd))])
  {
  }

  /**
   * A known command other than `clear` records exactly one entry: the line as
   * typed, with the command's answer.
   */
  lemma KnownCommand(s: State, cmd: string, rand: nat)
    requires Lookup(Parse(cmd).command).Some? && Lookup(Parse(cmd).command).value != Clear
    ensures var c := Lookup(Parse(cmd).command).value; var r := Execute(s, c, Parse(cmd).args, rand);
      Handle(s, cmd, rand).history == s.history + [Entry(cmd, r.output)]
  {
  }

  /** `clear` empties the history and records nothing; any arguments are ignored. */
  lemma ClearCommand(s: State, cmd: string, rand: nat)
    requires Parse(cmd).command == "clear"
    ensures Handle(s, cmd, rand) == s.(history := [])
  {
    var p := Parse(cmd);
    LookupClear(p.command);
    var r := Execute(s, Clear, p.args, rand);
    assert r == Reply(Printed(""), s.(history := []));
    assert Command(s, cmd, rand) == r.next;
  }

  lemma LookupClear(command: string)
    requires command == "clear"
    ensures Lookup(command) == Some(Clear)
  {
  }

  /** While locked, a secret command answers the lock message and changes nothing. */
  lemma LockedCommand(s: State, c: Cmd, args: string, rand: nat)
    requires !s.easterEggFound && (Gated(c) || c == Secrets)
    ensures Execute(s, c, args, rand).next == s
    ensures Execute(s, c, args, rand).output == Fixed(if c == Secrets then SecretsLockedText else LockedText)
  {
  }

  /** `konami` unlocks, whatever the state, and restarts the detector when it was locked. */
  lemma KonamiCommand(s: State, cmd: string, rand: nat)
    requires Parse(cmd).command == "konami"
    ensures Handle(s, cmd, rand) == s.(
      easterEggFound := true,
      history := s.history + [Entry(cmd, Fixed(KonamiText))],
      konamiIndex := if s.easterEggFound then s.konamiIndex else 0)
  {
    var p := Parse(cmd);
    LookupKonami(p.command);
    var r := Execute(s, Konami, p.args, rand);
    assert r == Reply(Fixed(KonamiText), s.(easterEggFound := true));
    assert Command(s, cmd, rand) == r.next.(history := r.next.history + [Entry(cmd, r.output)]);
  }

  lemma LookupKonami(command: string)
    requires command == "konami"
    ensures Lookup(command) == Some(Konami)
  {
  }

  /** The line the detector and the egg run is the bare word `konami`. */
  lemma KonamiWord()
    ensures Parse("konami") == Parsed("konami", "")
  {
    PlainWord("konami");
  }

  /** A lower-case word with no whitespace parses as the command word itself, with no arguments. */
  lemma PlainWord(w: string)
    requires |w| > 0 && forall i :: 0 <= i < |w| ==> 'a' <= w[i] <= 'z'
    ensures Parse(w) == Parsed(w, "")
  {
    TrimUnpadded(w);
    LowerUnchanged(w);
    assert ' ' !in w;
    SplitNone(w, ' ');
  }

  /** `matrix` flips the mode; the answer describes the mode before the flip; twice is no change. */
  lemma MatrixToggles(s: State, args: string, rand: nat)
    ensures var r := Execute(s, Matrix, args, rand);
      && r.next == s.(matrixMode := !s.matrixMode)
      && r.output == Fixed(if s.matrixMode then MatrixExitText else MatrixEnterText)
      && Execute(r.next, Matrix, args, rand).next == s
  {
  }

  /** `morse` with no text answers its usage; otherwise the answer carries one code per character. */
  lemma MorseCommand(s: State, args: string, rand: nat)
    requires s.easterEggFound
    ensures args == "" ==> Execute(s, Morse, args, rand).output == Fixed(MorseUsageText)
    ensures args != "" ==> var out := Execute(s, Morse, args, rand).output;
      out == Printed("📡 Morse: " + MorseEncode(Lower(args)))
      && Split(MorseEncode(Lower(args)), ' ') == seq(|args|, i requires 0 <= i < |args| => MorseOf(Lower(args)[i]))
  {
    if args != "" {
      MorsePieces(Lower(args));
    }
  }

  /** A game opens only once unlocked, and no entry of the table locks the secrets again. */
  lemma ExecuteKeepsInv(s: State, c: Cmd, args: string, rand: nat)
    requires Inv(s)
    ensures Inv(Execute(s, c, args, rand).next)
    ensures s.easterEggFound ==> Execute(s, c, args, rand).next.easterEggFound
  {
  }

  /** Every command keeps the invariant, and nothing ever locks the secrets again. */
  lemma HandleKeepsInv(s: State, cmd: string, rand: nat)
    requires Inv(s)
    ensures Inv(Handle(s, cmd, rand))
    ensures s.easterEggFound ==> Handle(s, cmd, rand).easterEggFound
  {
    var p := Parse(cmd);
    match Lookup(p.command)
    case None =>
    case Some(c) => ExecuteKeepsInv(s, c, p.args, rand);
  }

  // ---------------------------------------------------------------------
  // The form and the key listener
  // ---------------------------------------------------------------------

  /** `handleSubmit`: a line that is not blank runs as a command and the box is emptied. */
  function Submit(s: State, rand: nat): State {
    if Trim(s.input) != "" then Handle(s, s.input, rand).(input := "") else s
  }

  /** A blank line changes nothing; any other line leaves the box empty. */
  lemma SubmitRules(s: State, rand: nat)
    ensures AllSpace(s.input) ==> Submit(s, rand) == s
    ensures !AllSpace(s.input) ==> Submit(s, rand) == Handle(s, s.input, rand).(input := "")
  {
    TrimEmpty(s.input);
  }

  const KONAMI_CODE: seq<string> :=
    ["ArrowUp", "ArrowUp", "ArrowDown", "ArrowDown", "ArrowLeft", "ArrowRight", "ArrowLeft", "ArrowRight", "b", "a"]

  /** Where the detector stands after a key, and whether it completed the code. */
  datatype Detection = Detection(index: nat, fired: bool)

  /**
   * One key for the detector: a case-insensitive match with the expected key
   * advances, the tenth match fires and starts over, and any other key starts
   * over without being compared with the first key of the code.
   */
  function Detect(index: nat, key: string): (r: Detection)
    requires index < |KONAMI_CODE|
    ensures r.index < |KONAMI_CODE|
  {
    if Lower(key) == Lower(KONAMI_CODE[index]) then
      if index + 1 == |KONAMI_CODE| then Detection(0, true) else Detection(index + 1, false)
    else Detection(0, false)
  }

  /** The focus shortcut: Ctrl+K or Meta+K, with a lower-case `k`. */
  datatype KeyEvent = KeyEvent(key: string, ctrlKey: bool, metaKey: bool)

  predicate IsFocusShortcut(e: KeyEvent) {
    (e.ctrlKey || e.metaKey) && e.key == "k"
  }

  /** `handleKeyDown`: the shortcut only focuses the box; any other key goes to the detector. */
  function KeyDown(s: State, e: KeyEvent): State
    requires Inv(s)
  {
    if IsFocusShortcut(e) then s
    else
      var d := Detect(s.konamiIndex, e.key);
      if d.fired then Handle(s, "konami", 0).(konamiIndex := 0) else s.(konamiIndex := d.index)
  }

  /** The `easterEgg` window event: unlock, then run `konami`. */
  function EasterEggEvent(s: State): State {
    Settle(s, Command(s.(easterEggFound := true), "konami", 0))
  }

  lemma KeyDownKeepsInv(s: State, e: KeyEvent)
    requires Inv(s)
    ensures Inv(KeyDown(s, e))
    ensures s.easterEggFound ==> KeyDown(s, e).easterEggFound
    ensures IsFocusShortcut(e) ==> KeyDown(s, e) == s
  {
    if !IsFocusShortcut(e) {
      var d := Detect(s.konamiIndex, e.key);
      if d.fired {
        HandleKeepsInv(s, "konami", 0);
      }
    }
  }

  /** A key that completes the code runs `konami`: unlocked, one more entry, and the detector at the start. */
  lemma KeyDownFires(s: State, e: KeyEvent)
    requires Inv(s) && !IsFocusShortcut(e) && Detect(s.konamiIndex, e.key).fired
    ensures KeyDown(s, e) == s.(
      easterEggFound := true,
      history := s.history + [Entry("konami", Fixed(KonamiText))],
      konamiIndex := 0)
  {
    KonamiWord();
    KonamiCommand(s, "konami", 0);
  }

  /** The event unlocks and records one `konami` entry, and restarts the detector when it was locked. */
  lemma EasterEggEventRules(s: State)
    requires Inv(s)
    ensures Inv(EasterEggEvent(s))
    ensures EasterEggEvent(s) == s.(
      easterEggFound := true,
      history := s.history + [Entry("konami", Fixed(KonamiText))],
      konamiIndex := if s.easterEggFound then s.konamiIndex else 0)
  {
    KonamiWord();
    KonamiCommand(s.(easterEggFound := true), "konami", 0);
  }

  // ---------------------------------------------------------------------
  // The detector over a run of keys
  // ---------------------------------------------------------------------

  /** The detector fed `keys` one by one from the start of the code. */
  function Run(keys: seq<string>): (r: Detection)
    ensures r.index < |KONAMI_CODE|
  {
    if |keys| == 0 then Detection(0, false) else Detect(Run(keys[..|keys| - 1]).index, keys[|keys| - 1])
  }

  /** The last `k` keys are, up to case, the first `k` keys of the code. */
  predicate EndsWithCodePrefix(keys: seq<string>, k: nat)
    decreases k
  {
    if k == 0 then true
    else
      && k <= |keys| && k <= |KONAMI_CODE|
      && Lower(keys[|keys| - 1]) == Lower(KONAMI_CODE[k - 1])
      && EndsWithCodePrefix(keys[..|keys| - 1], k - 1)
  }

  /**
   * The detector is sound: its index counts keys that really are the start of
   * the code, and it fires only on a key that completes the whole code.
   */
  lemma {:induction false} RunSound(keys: seq<string>)
    ensures EndsWithCodePrefix(keys, Run(keys).index)
    ensures Run(keys).fired ==> EndsWithCodePrefix(keys, |KONAMI_CODE|)
    decreases |keys|
  {
    if |keys| > 0 {
      RunSound(keys[..|keys| - 1]);
    }
  }

  /** After a run that leaves the detector at the start, typing the code fires it on the last key. */
  lemma {:induction false} RunFires(prefix: seq<string>)
    requires Run(prefix).index == 0
    ensures forall k :: 0 < k < |KONAMI_CODE| ==> Run(prefix + KONAMI_CODE[..k]) == Detection(k, false)
    ensures Run(prefix + KONAMI_CODE).fired
  {
    forall k | 0 < k < |KONAMI_CODE| ensures Run(prefix + KONAMI_CODE[..k]) == Detection(k, false) {
      RunCodePrefix(prefix, k);
    }
    RunCodePrefix(prefix, |KONAMI_CODE| - 1);
    var keys := prefix + KONAMI_CODE;
    assert keys[..|keys| - 1] == prefix + KONAMI_CODE[..|KONAMI_CODE| - 1];
  }

  lemma {:induction false} RunCodePrefix(prefix: seq<string>, k: nat)
    requires Run(prefix).index == 0 && k < |KONAMI_CODE|
    ensures Run(prefix + KONAMI_CODE[..k]).index == k
    ensures k > 0 ==> !Run(prefix + KONAMI_CODE[..k]).fired
    decreases k
  {
    if k == 0 {
      assert prefix + KONAMI_CODE[..0] == prefix;
    } else {
      RunCodePrefix(prefix, k - 1);
      RunCodeStep(prefix, k);
    }
  }

  /** The `k`-th key of the code, after the first `k - 1`, advances the detector to `k`. */
  lemma RunCodeStep(prefix: seq<string>, k: nat)
    requires 0 < k < |KONAMI_CODE| && Run(prefix + KONAMI_CODE[..k - 1]).index == k - 1
    ensures Run(prefix + KONAMI_CODE[..k]) == Detection(k, false)
  {
    var init, key := prefix + KONAMI_CODE[..k - 1], KONAMI_CODE[k - 1];
    AppendPrefix(prefix, KONAMI_CODE, k);
    RunSnoc(init, key);
    assert Detect(k - 1, key) == Detection(k, false) by {
      DetectHit(k - 1, key);
    }
  }

  /** The first `k` keys of `code` appended are the first `k - 1` and then the `k`-th. */
  lemma AppendPrefix(prefix: seq<string>, code: seq<string>, k: nat)
    requires 0 < k <= |code|
    ensures prefix + code[..k] == (prefix + code[..k - 1]) + [code[k - 1]]
  {
    assert code[..k] == code[..k - 1] + [code[k - 1]];
  }

  /** One more key is fed to the detector where the run left it. */
  lemma RunSnoc(keys: seq<string>, key: string)
    ensures Run(keys + [key]) == Detect(Run(keys).index, key)
  {
    assert (keys + [key])[..|keys|] == keys;
  }

  /** The detector after `n` keys is the detector after `n - 1` keys fed the `n`-th. */
  lemma RunStep(keys: seq<string>, n: nat)
    requires 0 < n <= |keys|
    ensures Run(keys[..n]) == Detect(Run(keys[..n - 1]).index, keys[n - 1])
  {
    assert keys[..n][..n - 1] == keys[..n - 1];
  }

  /** The expected key advances the detector, short of the last key of the code. */
  lemma DetectHit(index: nat, key: string)
    requires index + 1 < |KONAMI_CODE| && key == KONAMI_CODE[index]
    ensures Detect(index, key) == Detection(index + 1, false)
  {
  }

  /** Any key other than the expected one, up to case, starts the detector over. */
  lemma DetectMiss(index: nat, key: string)
    requires index < |KONAMI_CODE| && Lower(key) != Lower(KONAMI_CODE[index])
    ensures Detect(index, key) == Detection(0, false)
  {
  }

  /** The detector over the code with one `ArrowUp` in front, key by key. */
  lemma {:induction false} StrayRun(keys: seq<string>, n: nat)
    requires keys == ["ArrowUp"] + KONAMI_CODE && 0 < n <= |keys|
    ensures Run(keys[..n]) == if n <= 2 then Detection(n, false) else Detection(0, false)
    decreases n
  {
    RunStep(keys, n);
    if n == 1 {
      assert keys[..0] == [];
      assert keys[0] == KONAMI_CODE[0];
    } else {
      StrayRun(keys, n - 1);
      assert keys[n - 1] == KONAMI_CODE[n - 2];
      if n == 2 {
        assert KONAMI_CODE[0] == KONAMI_CODE[1];
      } else {
        var index := Run(keys[..n - 1]).index;
        assert Lower(keys[n - 1]) != Lower(KONAMI_CODE[index]) by {
          assert |keys[n - 1]| != |KONAMI_CODE[index]|;
        }
        DetectMiss(index, keys[n - 1]);
      }
    }
  }

  /**
   * Because a wrong key is not compared with the first key of the code, one
   * extra `ArrowUp` before the code means the code is not recognised.
   */
  lemma StrayArrowUpHidesCode()
    ensures var keys := ["ArrowUp"] + KONAMI_CODE;
      forall n :: 0 < n <= |keys| ==> !Run(keys[..n]).fired
  {
    var keys := ["ArrowUp"] + KONAMI_CODE;
    forall n | 0 < n <= |keys| ensures !Run(keys[..n]).fired {
      StrayRun(keys, n);
    }
  }

  // ---------------------------------------------------------------------
  // The component
  // ---------------------------------------------------------------------

  class Terminal {
    var input: string
    var history: seq<Entry>
    var easterEggFound: bool
    var matrixMode: bool
    var showSnakeGame: bool
    var showMemoryGame: bool
    /** The `konamiIndex` of the key listener currently registered. */
    var konamiIndex: nat

    function Snapshot(): State
      reads this
    {
      State(input, history, easterEggFound, matrixMode, showSnakeGame, showMemoryGame, konamiIndex)
    }

    predicate Valid()
      reads this
    {
      Inv(Snapshot())
    }

    constructor ()
      ensures Valid() && Snapshot() == Initial()
    {
      input := "";
      history := [Entry("whoami", Fixed(WhoamiText)), Entry("skills", Fixed(SkillsText))];
      easterEggFound := false;
      matrixMode := false;
      showSnakeGame := false;
      showMemoryGame := false;
      konamiIndex := 0;
    }

    /** The state changes of one event, applied together. */
    method Commit(r: State)
      modifies this
      ensures Snapshot() == r
    {
      input, history, easterEggFound, konamiIndex := r.input, r.history, r.easterEggFound, r.konamiIndex;
      matrixMode, showSnakeGame, showMemoryGame := r.matrixMode, r.showSnakeGame, r.showMemoryGame;
    }

    /** The input box's `onChange`. */
    method SetInput(text: string)
      requires Valid()
      modifies this
      ensures Valid() && Snapshot() == old(Snapshot()).(input := text)
    {
      input := text;
    }

    /** `handleCommand`: run the command, record it unless it is `clear`, and settle the listener. */
    method HandleCommand(cmd: string, rand: nat)
      requires Valid()
      modifies this
      ensures Valid() && Snapshot() == Handle(old(Snapshot()), cmd, rand)
    {
      HandleKeepsInv(Snapshot(), cmd, rand);
      var now := Snapshot();
      var p := Parse(cmd);
      var found := Lookup(p.command);
      var next: State;
      if found.None? {
        next := now.(history := history + [Entry(cmd, NotFound(cmd))]);
      } else {
        var c := found.value;
        var r := Execute(now, c, p.args, rand);
        next := if c == Clear then r.next else r.next.(history := r.next.history + [Entry(cmd, r.output)]);
      }
      Commit(Settle(now, next));
    }

    /** `handleSubmit`. */
    method HandleSubmit(rand: nat)
      requires Valid()
      modifies this
      ensures Valid() && Snapshot() == Submit(old(Snapshot()), rand)
    {
      ghost var before := Snapshot();
      if Trim(input) != "" {
        HandleCommand(input, rand);
        input := "";
        assert Snapshot() == Handle(before, before.input, rand).(input := "");
      }
    }

    /** `handleKeyDown`; `focus` tells whether the shortcut asked to focus the input box. */
    method HandleKeyDown(e: KeyEvent) returns (focus: bool)
      requires Valid()
      modifies this
      ensures Valid() && Snapshot() == KeyDown(old(Snapshot()), e)
      ensures focus <==> IsFocusShortcut(e)
    {
      if (e.ctrlKey || e.metaKey) && e.key == "k" {
        return true;
      }
      focus := false;
      ghost var before := Snapshot();
      if Lower(e.key) == Lower(KONAMI_CODE[konamiIndex]) {
        var next := konamiIndex + 1;
        if next == |KONAMI_CODE| {
          HandleCommand("konami", 0);
          konamiIndex := 0;
          assert Snapshot() == Handle(before, "konami", 0).(konamiIndex := 0);
        } else {
          konamiIndex := next;
        }
      } else {
        konamiIndex := 0;
      }
    }

    /** The `easterEgg` event sent by the egg. */
    method OnEasterEgg()
      requires Valid()
      modifies this
      ensures Valid() && Snapshot() == EasterEggEvent(old(Snapshot()))
    {
      EasterEggEventRules(Snapshot());
      var now := Snapshot();
      Commit(now.(
        easterEggFound := true,
        history := history + [Entry("konami", Fixed(KonamiText))],
        konamiIndex := if easterEggFound then konamiIndex else 0));
    }

    /** The games' `onClose` callbacks. */
    method CloseSnakeGame()
      requires Valid()
      modifies this
      ensures Valid() && Snapshot() == old(Snapshot()).(showSnakeGame := false)
    {
      showSnakeGame := false;
    }

    method CloseMemoryGame()
      requires Valid()
      modifies this
      ensures Valid() && Snapshot() == old(Snapshot()).(showMemoryGame := false)
    {
      showMemoryGame := false;
    }
  }
}
