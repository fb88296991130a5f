/**
  Shell text that sets and unsets variables: quoting (internal/endpoint/environment.go), and a reader
  with the quoting rules of IEEE Std 1003.1-2017, XCU sections 2.2.2 and 2.2.3.

  The reader accepts only text without expansions: an unquoted special character other than a quote,
  a blank or a newline makes it fail, as do `$`, a backquote and a backslash between double quotes.
*/
module ShellText {
  import opened Common

  datatype Command = Export(name: string, value: string) | Unset(name: string)

  // ---------------------------------------------------------------- reading

  datatype Mode = Plain | Single | Double

  /** The words and simple commands read so far; `word` is the unfinished one. */
  datatype Lexer = Failed | Lexer(mode: Mode, word: Option<string>, words: seq<string>, commands: seq<seq<string>>)
  {
    function EndWord(): Lexer
      requires Lexer?
    {
      if word.None? then this else this.(word := None, words := words + [word.value])
    }

    function EndCommand(): Lexer
      requires Lexer?
    {
      var ended := EndWord();
      if ended.words == [] then ended else ended.(words := [], commands := ended.commands + [ended.words])
    }

    function Append(c: char): Lexer
      requires Lexer?
    {
      this.(word := Some(Text() + [c]))
    }

    function Text(): string
      requires Lexer?
    {
      if word.Some? then word.value else ""
    }
  }

  /** Characters that stand for something else, or may, when they are not quoted. */
  const SPECIAL := "|&;<>()$`\\*?[]#~%{}!^"

  function Step(l: Lexer, c: char): Lexer {
    if l.Failed? then Failed
    else if l.mode == Single then
      if c == '\'' then l.(mode := Plain) else l.Append(c)
    else if l.mode == Double then
      if c == '"' then l.(mode := Plain)
      else if c in "$`\\" then Failed
      else l.Append(c)
    else if c == '\'' then l.(mode := Single, word := Some(l.Text()))
    else if c == '"' then l.(mode := Double, word := Some(l.Text()))
    else if c == ' ' || c == '\t' then l.EndWord()
    else if c == '\n' then l.EndCommand()
    else if c in SPECIAL then Failed
    else l.Append(c)
  }

  function Read(l: Lexer, text: string): Lexer
    decreases |text|
  {
    if text == [] then l else Read(Step(l, text[0]), text[1..])
  }

  const START := Lexer(Plain, None, [], [])

  /** The simple commands of a text, each a list of words. */
  function Commands(text: string): Option<seq<seq<string>>> {
    var l := Read(START, text);
    if l.Failed? || l.mode != Plain then None else Some(l.EndCommand().commands)
  }

  /** The number of characters before the first '='. */
  function NameLength(word: string): nat {
    if word == [] || word[0] == '=' then 0 else 1 + NameLength(word[1..])
  }

  function Interpret(words: seq<string>): Option<Command> {
    if |words| != 2 then None
    else if words[0] == "unset" then Some(Unset(words[1]))
    else if words[0] == "export" then
      var n := NameLength(words[1]);
      if n < |words[1]| then Some(Export(words[1][..n], words[1][n + 1..])) else None
    else None
  }

  function InterpretAll(commands: seq<seq<string>>): Option<seq<Command>> {
    if commands == [] then Some([])
    else
      var first, rest := Interpret(commands[0]), InterpretAll(commands[1..]);
      if first.Some? && rest.Some? then Some([first.value] + rest.value) else None
  }

  /** What a shell understands when it evaluates a text. */
  function Understood(text: string): Option<seq<Command>> {
    var commands := Commands(text);
    if commands.None? then None else InterpretAll(commands.value)
  }

  /** A command substitution drops trailing newlines. */
  function Substituted(text: string): string {
    if text != [] && text[|text| - 1] == '\n' then Substituted(text[..|text| - 1]) else text
  }

  // ---------------------------------------------------------------- writing

  function Escape(s: string): string {
    if s == [] then [] else (if s[0] == '\'' then "'\"'\"'" else [s[0]]) + Escape(s[1..])
  }

  function Quote(s: string): string {
    "'" + Escape(s) + "'"
  }

  function Line(c: Command): string {
    match c
    case Export(name, value) => "export " + name + "=" + Quote(value) + "\n"
    case Unset(name) => "unset " + name + "\n"
  }

  function Lines(commands: seq<Command>): string {
    if commands == [] then [] else Line(commands[0]) + Lines(commands[1..])
  }

  lemma {:induction false} LinesAppend(a: seq<Command>, b: seq<Command>)
    ensures Lines(a + b) == Lines(a) + Lines(b)
  {
    hide Line;
    if a == [] {
      assert a + b == b;
    } else {
      assert (a + b)[1..] == a[1..] + b;
      LinesAppend(a[1..], b);
    }
  }

  lemma LinesOne(c: Command)
    ensures Lines([c]) == Line(c)
  {
    hide Line;
    assert [c][1..] == [];
    assert Line(c) + [] == Line(c);
  }

  predicate NameChar(c: char) {
    'a' <= c <= 'z' || 'A' <= c <= 'Z' || '0' <= c <= '9' || c == '_'
  }

  predicate IsName(name: string) {
    name != [] && !('0' <= name[0] <= '9') && forall i :: 0 <= i < |name| ==> NameChar(name[i])
  }

  // ---------------------------------------------------------------- reading what was written

  lemma {:induction false} ReadAppend(l: Lexer, a: string, b: string)
    ensures Read(l, a + b) == Read(Read(l, a), b)
    decreases |a|
  {
    hide Step;
    if a == [] {
      assert a + b == b;
    } else {
      assert (a + b)[1..] == a[1..] + b;
      ReadAppend(Step(l, a[0]), a[1..], b);
    }
  }

  lemma ReadOne(l: Lexer, c: char)
    ensures Read(l, [c]) == Step(l, c)
  {
    hide Step;
    assert [c][1..] == [];
    assert Read(Step(l, c), []) == Step(l, c);
  }

  /** The replacement of one quote closes the quotes, quotes a quote, and opens them again. */
  lemma ReadEscapedQuote(l: Lexer)
    requires l.Lexer? && l.mode == Single
    ensures Read(l, "'\"'\"'") == l.Append('\'')
  {
    var a := Step(l, '\'');
    var b := Step(a, '"');
    var c := Step(b, '\'');
    var d := Step(c, '"');
    assert Step(d, '\'') == l.Append('\'');
    hide Step;
    ReadOne(d, '\'');
    ReadAppend(c, ['"'], ['\'']);
    ReadOne(c, '"');
    ReadAppend(b, ['\''], ['"', '\'']);
    ReadOne(b, '\'');
    ReadAppend(a, ['"'], ['\'', '"', '\'']);
    ReadOne(a, '"');
    ReadAppend(l, ['\''], ['"', '\'', '"', '\'']);
    ReadOne(l, '\'');
    assert ['"'] + ['\''] == ['"', '\''];
    assert ['\''] + ['"', '\''] == ['\'', '"', '\''];
    assert ['"'] + ['\'', '"', '\''] == ['"', '\'', '"', '\''];
    assert "'\"'\"'" == ['\''] + ['"', '\'', '"', '\''];
  }

  /** Between single quotes, the escaped text reads as the text. */
  lemma {:induction false} ReadEscape(l: Lexer, s: string)
    requires l.Lexer? && l.mode == Single && l.word.Some?
    ensures Read(l, Escape(s)) == l.(word := Some(l.word.value + s))
    decreases |s|
  {
    if s == [] {
      assert l.word.value + s == l.word.value;
    } else {
      var first := if s[0] == '\'' then "'\"'\"'" else [s[0]];
      if s[0] == '\'' {
        ReadEscapedQuote(l);
      } else {
        ReadOne(l, s[0]);
      }
      var next := l.Append(s[0]);
      assert Read(l, first) == next;
      hide Step;
      ReadAppend(l, first, Escape(s[1..]));
      ReadEscape(next, s[1..]);
      assert l.word.value + [s[0]] + s[1..] == l.word.value + s;
    }
  }

  /** Quote removal undoes quoting, for every text, in the middle of a word. */
  lemma ReadQuote(l: Lexer, s: string)
    requires l.Lexer? && l.mode == Plain && l.word.Some?
    ensures Read(l, Quote(s)) == l.(word := Some(l.word.value + s))
  {
    var open := Step(l, '\'');
    assert open == l.(mode := Single);
    var full := open.(word := Some(l.word.value + s));
    assert Step(full, '\'') == full.(mode := Plain);
    hide Step;
    ReadOne(l, '\'');
    ReadAppend(l, "'", Escape(s) + "'");
    ReadEscape(open, s);
    ReadAppend(open, Escape(s), "'");
    ReadOne(full, '\'');
    assert "'" + Escape(s) + "'" == "'" + (Escape(s) + "'");
  }

  predicate Ordinary(text: string) {
    forall i :: 0 <= i < |text| ==> NameChar(text[i]) || text[i] == '='
  }

  lemma StepOrdinary(l: Lexer, text: string)
    requires l.Lexer? && l.mode == Plain && text != [] && Ordinary(text)
    ensures Step(l, text[0]) == l.Append(text[0])
    ensures Ordinary(text[1..])
  {
    assert NameChar(text[0]) || text[0] == '=';
  }

  /** Names and '=' stand for themselves. */
  lemma {:induction false} ReadOrdinary(l: Lexer, text: string)
    requires l.Lexer? && l.mode == Plain && text != [] && Ordinary(text)
    ensures Read(l, text) == l.(word := Some(l.Text() + text))
    decreases |text|
  {
    hide Step, Ordinary;
    var next := l.Append(text[0]);
    StepOrdinary(l, text);
    if |text| == 1 {
      assert text == [text[0]];
      ReadOne(l, text[0]);
    } else {
      ReadOrdinary(next, text[1..]);
      assert l.Text() + [text[0]] + text[1..] == l.Text() + text;
    }
  }

  /** A word and the blank after it. */
  lemma ReadWord(l: Lexer, word: string)
    requires l.Lexer? && l.mode == Plain && l.word.None? && word != [] && Ordinary(word)
    ensures Read(l, word + " ") == l.(words := l.words + [word])
  {
    ReadOrdinary(l, word);
    var full := l.(word := Some(word));
    assert "" + word == word;
    assert Step(full, ' ') == l.(words := l.words + [word]);
    hide Step;
    ReadOne(full, ' ');
    ReadAppend(l, word, " ");
  }

  function Words(c: Command): seq<string> {
    match c
    case Export(name, value) => ["export", name + "=" + value]
    case Unset(name) => ["unset", name]
  }

  /** The line without its newline leaves the command's last word unfinished. */
  lemma ReadUnset(l: Lexer, name: string)
    requires l.Lexer? && l.mode == Plain && l.word.None? && l.words == [] && IsName(name)
    ensures Read(l, "unset " + name) == l.(words := ["unset"], word := Some(name))
  {
    hide Step;
    ReadWord(l, "unset");
    assert "unset" + " " == "unset ";
    var next := l.(words := [] + ["unset"]);
    ReadAppend(l, "unset ", name);
    ReadOrdinary(next, name);
    assert "" + name == name;
    assert [] + ["unset"] == ["unset"];
  }

  lemma ReadExport(l: Lexer, name: string, value: string)
    requires l.Lexer? && l.mode == Plain && l.word.None? && l.words == [] && IsName(name)
    ensures Read(l, "export " + name + "=" + Quote(value)) == l.(words := ["export"], word := Some(name + "=" + value))
  {
    hide Step, Quote;
    ReadWord(l, "export");
    assert "export" + " " == "export ";
    var next := l.(words := [] + ["export"]);
    assert [] + ["export"] == ["export"];
    ReadAppend(l, "export ", (name + "=") + Quote(value));
    ReadAppend(next, name + "=", Quote(value));
    ReadOrdinary(next, name + "=");
    assert "" + (name + "=") == name + "=";
    ReadQuote(next.(word := Some(name + "=")), value);
    assert "export " + name + "=" + Quote(value) == "export " + ((name + "=") + Quote(value));
  }

  function Body(c: Command): string {
    match c
    case Export(name, value) => "export " + name + "=" + Quote(value)
    case Unset(name) => "unset " + name
  }

  /** Every line reads as its command. */
  lemma ReadBody(l: Lexer, c: Command)
    requires l.Lexer? && l.mode == Plain && l.word.None? && l.words == [] && IsName(c.name)
    ensures var r := Read(l, Body(c));
      r.Lexer? && r.mode == Plain && r.EndCommand() == l.(commands := l.commands + [Words(c)])
  {
    hide Step, Quote, IsName, Read;
    match c {
      case Export(name, value) =>
        ReadExport(l, name, value);
        EndOfCommand(l, "export", name + "=" + value);
      case Unset(name) =>
        ReadUnset(l, name);
        EndOfCommand(l, "unset", name);
    }
  }

  lemma EndOfCommand(l: Lexer, first: string, second: string)
    requires l.Lexer? && l.mode == Plain && l.word.None? && l.words == []
    ensures l.(words := [first], word := Some(second)).EndCommand() == l.(commands := l.commands + [[first, second]])
  {
    assert [first] + [second] == [first, second];
  }

  lemma ReadLine(l: Lexer, c: Command)
    requires l.Lexer? && l.mode == Plain && l.word.None? && l.words == [] && IsName(c.name)
    ensures Read(l, Line(c)) == l.(commands := l.commands + [Words(c)])
  {
    ReadBody(l, c);
    var r := Read(l, Body(c));
    assert Step(r, '\n') == r.EndCommand();
    hide Step, Words;
    ReadOne(r, '\n');
    ReadAppend(l, Body(c), "\n");
    assert Line(c) == Body(c) + "\n";
  }

  function AllWords(commands: seq<Command>): seq<seq<string>> {
    if commands == [] then [] else [Words(commands[0])] + AllWords(commands[1..])
  }

  predicate AllNamed(commands: seq<Command>) {
    forall i :: 0 <= i < |commands| ==> IsName(commands[i].name)
  }

  lemma {:induction false} ReadLines(l: Lexer, commands: seq<Command>)
    requires l.Lexer? && l.mode == Plain && l.word.None? && l.words == [] && AllNamed(commands)
    ensures Read(l, Lines(commands)) == l.(commands := l.commands + AllWords(commands))
    decreases |commands|
  {
    hide Step, Words, Line, IsName;
    if commands == [] {
      assert l.commands + [] == l.commands;
    } else {
      var next := l.(commands := l.commands + [Words(commands[0])]);
      ReadLine(l, commands[0]);
      ReadAppend(l, Line(commands[0]), Lines(commands[1..]));
      ReadLines(next, commands[1..]);
      assert l.commands + [Words(commands[0])] + AllWords(commands[1..])
          == l.commands + ([Words(commands[0])] + AllWords(commands[1..]));
    }
  }

  lemma {:induction false} NameLengthOfAssignment(name: string, value: string)
    requires forall i :: 0 <= i < |name| ==> NameChar(name[i])
    ensures NameLength(name + "=" + value) == |name|
  {
    var word := name + "=" + value;
    if name == [] {
      assert word[0] == '=';
    } else {
      assert word[1..] == name[1..] + "=" + value;
      NameLengthOfAssignment(name[1..], value);
    }
  }

  lemma InterpretWords(c: Command)
    requires IsName(c.name)
    ensures Interpret(Words(c)) == Some(c)
  {
    if c.Export? {
      var word := c.name + "=" + c.value;
      NameLengthOfAssignment(c.name, c.value);
      assert word[..|c.name|] == c.name && word[|c.name| + 1..] == c.value;
    }
  }

  lemma {:induction false} InterpretAllWords(commands: seq<Command>)
    requires AllNamed(commands)
    ensures InterpretAll(AllWords(commands)) == Some(commands)
  {
    hide Words, Interpret, IsName;
    if commands != [] {
      var all := AllWords(commands);
      assert all[1..] == AllWords(commands[1..]);
      InterpretWords(commands[0]);
      InterpretAllWords(commands[1..]);
      assert [commands[0]] + commands[1..] == commands;
    }
  }

  /**
    The text of some commands, passed through a command substitution and evaluated, is read as
    exactly these commands, whatever the values contain.
  */
  lemma TextReadsBack(commands: seq<Command>)
    requires AllNamed(commands)
    requires commands != [] && commands[|commands| - 1].Export?
    ensures Understood(Substituted(Lines(commands))) == Some(commands)
  {
    hide Step, IsName, Words, Line, Body, Read, Substituted, InterpretAll;
    var n := |commands| - 1;
    var init, last := commands[..n], commands[n];
    assert commands == init + [last];
    LinesAppend(init, [last]);
    LinesOne(last);
    SubstitutedDropsOne(Lines(init), last);
    ReadLines(START, init);
    assert [] + AllWords(init) == AllWords(init);
    var l := START.(commands := AllWords(init));
    ReadAppend(START, Lines(init), Body(last));
    ReadBody(l, last);
    AllWordsSnoc(init, last);
    InterpretAllWords(commands);
  }

  lemma {:induction false} AllWordsSnoc(commands: seq<Command>, last: Command)
    ensures AllWords(commands + [last]) == AllWords(commands) + [Words(last)]
  {
    hide Words;
    if commands == [] {
      assert commands + [last] == [last];
    } else {
      assert (commands + [last])[1..] == commands[1..] + [last];
      AllWordsSnoc(commands[1..], last);
    }
  }

  /** A text that ends with an export line ends with a quote and one newline. */
  lemma SubstitutedDropsOne(before: string, last: Command)
    requires last.Export?
    ensures Substituted(before + Line(last)) == before + Body(last)
  {
    var text := before + Line(last);
    assert Line(last) == Body(last) + "\n";
    assert text[..|text| - 1] == before + Body(last);
    var body := before + Body(last);
    assert body[|body| - 1] == '\'';
  }
}
