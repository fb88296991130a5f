/** Dotenv files (internal/config/config.go). */
module Dotenv {
  import opened Common
  import opened ShellText
  import Environment

  type Env = Environment.Env

  /** Unquoting of a double-quoted value, with both quotes; None for an invalid escape. */
  type Unquoter = string -> Option<string>

  /** Lines of this many bytes or more are refused. */
  const LINE_LIMIT := 1024 * 1024

  function Size(text: string): nat {
    if text == [] then 0
    else
      var c := text[|text| - 1];
      Size(text[..|text| - 1]) + if c < '\U{80}' then 1 else if c < '\U{800}' then 2 else if c < '\U{10000}' then 3 else 4
  }

  predicate IsSpace(c: char) {
    || '\t' <= c <= '\r' || c == ' ' || c == '\U{85}' || c == '\U{A0}' || c == '\U{1680}'
    || '\U{2000}' <= c <= '\U{200A}' || c == '\U{2028}' || c == '\U{2029}' || c == '\U{202F}'
    || c == '\U{205F}' || c == '\U{3000}'
  }

  function TrimLeft(s: string): string {
    if s != [] && IsSpace(s[0]) then TrimLeft(s[1..]) else s
  }

  function TrimRight(s: string): string {
    if s != [] && IsSpace(s[|s| - 1]) then TrimRight(s[..|s| - 1]) else s
  }

  function TrimSpace(s: string): string {
    TrimRight(TrimLeft(s))
  }

  /** The position of the first `c`, or the length. */
  function Find(s: string, c: char): (n: nat)
    ensures n <= |s| && (n < |s| ==> s[n] == c) && forall i :: 0 <= i < n ==> s[i] != c
  {
    if s == [] || s[0] == c then 0 else 1 + Find(s[1..], c)
  }

  // ---------------------------------------------------------------- lines

  function DropReturn(line: string): string {
    if line != [] && line[|line| - 1] == '\r' then line[..|line| - 1] else line
  }

  /** The raw lines of a text; no line follows a final newline. */
  function RawLines(data: string): seq<string> {
    var n := Find(data, '\n');
    if n == |data| then (if data == [] then [] else [data])
    else [data[..n]] + RawLines(data[n + 1..])
  }

  // ---------------------------------------------------------------- one line

  datatype Line = Blank | Assign(key: string, value: string) | Bad

  /** The closing quote at or after `i`; a backslash hides the next character between double quotes. */
  function ClosingQuote(value: string, i: nat): (end: Option<nat>)
    requires value != []
    ensures end.Some? ==> i <= end.value < |value| && value[end.value] == value[0]
    decreases |value| - i
  {
    if i >= |value| then None
    else if value[0] == '"' && value[i] == '\\' then ClosingQuote(value, i + 2)
    else if value[i] == value[0] then Some(i)
    else ClosingQuote(value, i + 1)
  }

  predicate StartsComment(value: string, i: nat)
    requires i < |value|
  {
    value[i] == '#' && (i == 0 || value[i - 1] == ' ' || value[i - 1] == '\t')
  }

  /** The start of the first comment at or after `i`, or the length. */
  function CommentStart(value: string, i: nat): (n: nat)
    requires i <= |value|
    ensures i <= n <= |value|
    decreases |value| - i
  {
    if i == |value| || StartsComment(value, i) then i else CommentStart(value, i + 1)
  }

  function Unquoted(value: string): string {
    var n := CommentStart(value, 0);
    if n < |value| then TrimSpace(value[..n]) else value
  }

  function Quoted(value: string, unquote: Unquoter): Option<string>
    requires value != []
  {
    var end := ClosingQuote(value, 1);
    if end.None? then None
    else
      var rest := TrimSpace(value[end.value + 1..]);
      if rest != [] && rest[0] != '#' then None
      else if value[0] == '\'' then Some(value[1..end.value])
      else unquote(value[..end.value + 1])
  }

  const EXPORT := "export "

  function ParseAssignment(text: string, unquote: Unquoter): Line {
    var n := Find(text, '=');
    var key := TrimSpace(text[..n]);
    if n == |text| || !IsName(key) then Bad
    else
      var value := TrimSpace(text[n + 1..]);
      if value != [] && (value[0] == '"' || value[0] == '\'') then
        var quoted := Quoted(value, unquote);
        if quoted.None? then Bad else Assign(key, quoted.value)
      else Assign(key, Unquoted(value))
  }

  function ParseLine(line: string, unquote: Unquoter): Line {
    var trimmed := TrimSpace(line);
    if trimmed == [] || trimmed[0] == '#' then Blank
    else ParseAssignment(if EXPORT <= trimmed then trimmed[|EXPORT|..] else trimmed, unquote)
  }

  // ---------------------------------------------------------------- whole files

  /** What one raw line adds to the result so far. */
  function Extend(before: Option<Env>, line: string, unquote: Unquoter): Option<Env> {
    if before.None? || Size(line) >= LINE_LIMIT then None
    else
      match ParseLine(DropReturn(line), unquote)
      case Blank => before
      case Bad => None
      case Assign(key, value) => Some(before.value[key := value])
  }

  function ParseLines(lines: seq<string>, unquote: Unquoter): Option<Env> {
    if lines == [] then Some(map[])
    else Extend(ParseLines(lines[..|lines| - 1], unquote), lines[|lines| - 1], unquote)
  }

  lemma ParseLinesSnoc(lines: seq<string>, line: string, unquote: Unquoter)
    ensures ParseLines(lines + [line], unquote) == Extend(ParseLines(lines, unquote), line, unquote)
  {
    hide Extend;
    assert (lines + [line])[..|lines|] == lines;
  }

  function Parse(data: string, unquote: Unquoter): Option<Env> {
    var env := ParseLines(RawLines(data), unquote);
    if env.Some? && Environment.Validates(env.value) then env else None
  }

  /** The loop over the lines, with the errors of the scanner and of single lines. */
  method ParseEnv(data: string, unquote: Unquoter) returns (env: Option<Env>)
    ensures env == Parse(data, unquote)
  {
    hide RawLines, ParseLine, Size, ParseLines, DropReturn;
    var result: Env := map[];
    var rest := data;
    ghost var seen: seq<string> := [];
    assert ParseLines([], unquote) == Some(map[]) by { BlankLine(unquote); }
    while rest != []
      invariant seen + RawLines(rest) == RawLines(data)
      invariant ParseLines(seen, unquote) == Some(result)
      decreases |rest|
    {
      var n := Find(rest, '\n');
      var line := rest[..n];
      ghost var after := if n < |rest| then rest[n + 1..] else [];
      RawLinesStep(rest);
      Regroup(seen, [line], RawLines(after));
      ParseLinesSnoc(seen, line, unquote);
      if Size(line) >= LINE_LIMIT {
        BadPrefix(seen + [line], RawLines(after), unquote);
        return None;
      }
      match ParseLine(DropReturn(line), unquote) {
        case Blank =>
        case Bad =>
          BadPrefix(seen + [line], RawLines(after), unquote);
          return None;
        case Assign(key, value) => result := result[key := value];
      }
      seen := seen + [line];
      rest := if n < |rest| then rest[n + 1..] else [];
    }
    NoRawLines();
    assert seen + [] == seen;
    return if Environment.Validates(result) then Some(result) else None;
  }

  lemma NoRawLines()
    ensures RawLines([]) == []
  {
  }

  lemma RawLinesStep(text: string)
    requires text != []
    ensures var n := Find(text, '\n');
      RawLines(text) == [text[..n]] + RawLines(if n < |text| then text[n + 1..] else [])
  {
    var n := Find(text, '\n');
    if n == |text| { assert text[..n] == text && [text] + [] == [text]; }
  }

  /** Lines after a bad one change nothing. */
  lemma {:induction false} BadPrefix(a: seq<string>, b: seq<string>, unquote: Unquoter)
    requires ParseLines(a, unquote).None?
    ensures ParseLines(a + b, unquote).None?
    decreases |b|
  {
    if b == [] {
      assert a + b == a;
    } else {
      assert (a + b)[..|a + b| - 1] == a + b[..|b| - 1];
      BadPrefix(a, b[..|b| - 1], unquote);
    }
  }

  // ---------------------------------------------------------------- parsing is a homomorphism

  lemma {:induction false} ParseLinesAppend(a: seq<string>, b: seq<string>, unquote: Unquoter)
    requires ParseLines(a, unquote).Some? && ParseLines(b, unquote).Some?
    ensures ParseLines(a + b, unquote) == Some(ParseLines(a, unquote).value + ParseLines(b, unquote).value)
    decreases |b|
  {
    hide Extend;
    if b == [] {
      assert a + b == a;
      MergeNothing(ParseLines(a, unquote).value);
    } else {
      var before, line := b[..|b| - 1], b[|b| - 1];
      assert b == before + [line] && a + b == (a + before) + [line];
      ParseLinesSnoc(before, line, unquote);
      ParseLinesSnoc(a + before, line, unquote);
      NoneStays(line, unquote);
      ParseLinesAppend(a, before, unquote);
      ExtendMerged(ParseLines(a, unquote).value, ParseLines(before, unquote).value, line, unquote);
    }
  }

  lemma MergeNothing(env: Env)
    ensures env + map[] == env
  {
  }

  lemma NoneStays(line: string, unquote: Unquoter)
    ensures Extend(None, line, unquote).None?
  {
  }

  lemma ExtendMerged(a: Env, b: Env, line: string, unquote: Unquoter)
    requires Extend(Some(b), line, unquote).Some?
    ensures Extend(Some(a + b), line, unquote) == Some(a + Extend(Some(b), line, unquote).value)
  {
    hide ParseLine, Size, DropReturn;
    match ParseLine(DropReturn(line), unquote) {
      case Assign(key, value) => assert (a + b)[key := value] == a + b[key := value];
      case _ =>
    }
  }

  /** The lines of two texts joined by a newline; a blank line comes between if the first text is empty or ends a line. */
  function Between(a: string): seq<string> {
    if a == [] || a[|a| - 1] == '\n' then [[]] else []
  }

  lemma {:induction false} RawLinesJoin(a: string, b: string)
    ensures RawLines(a + "\n" + b) == RawLines(a) + Between(a) + RawLines(b)
    decreases |a|
  {
    hide RawLines, Find;
    var n := Find(a, '\n');
    var joined := a + "\n" + b;
    FindJoin(a, b);
    NoRawLines();
    RawLinesStep(joined);
    if n < |a| {
      var rest := a[n + 1..];
      assert joined[..n] == a[..n];
      assert joined[n + 1..] == rest + "\n" + b;
      RawLinesStep(a);
      RawLinesJoin(rest, b);
      assert Between(rest) == Between(a) by { BetweenRest(a, n); }
      assert [a[..n]] + (RawLines(rest) + Between(rest) + RawLines(b))
          == ([a[..n]] + RawLines(rest)) + Between(rest) + RawLines(b);
    } else {
      assert joined[..n] == a && joined[n + 1..] == b;
      if a == [] {
        assert [[]] + RawLines(b) == [] + [[]] + RawLines(b);
      } else {
        RawLinesStep(a);
        assert a[..n] == a && [a] + [] == [a] && [a] + [] + RawLines(b) == [a] + RawLines(b);
      }
    }
  }

  lemma BetweenRest(a: string, n: nat)
    requires n < |a| && a[n] == '\n'
    ensures Between(a[n + 1..]) == Between(a)
  {
    var rest := a[n + 1..];
    assert rest != [] ==> rest[|rest| - 1] == a[|a| - 1];
  }

  lemma FindJoin(a: string, b: string)
    ensures Find(a + "\n" + b, '\n') == Find(a, '\n')
  {
    var joined := a + "\n" + b;
    var n := Find(a, '\n');
    assert joined[n] == '\n';
  }

  /** Two files joined by a newline parse to the two environments merged, the second over the first. */
  lemma JoinIsMerge(a: string, b: string, unquote: Unquoter)
    requires Parse(a, unquote).Some? && Parse(b, unquote).Some?
    ensures Parse(a + "\n" + b, unquote) == Some(Parse(a, unquote).value + Parse(b, unquote).value)
  {
    RawLinesJoin(a, b);
    BlankLine(unquote);
    hide ParseLines, RawLines, Environment.Validates;
    assert Between(a) == [] || Between(a) == [[]];
    MergeNothing(Parse(a, unquote).value);
    Environment.MergeValidates(Parse(a, unquote).value, Parse(b, unquote).value);
    ParseLinesAppend(RawLines(a), Between(a), unquote);
    ParseLinesAppend(RawLines(a) + Between(a), RawLines(b), unquote);
  }

  lemma BlankLine(unquote: Unquoter)
    ensures ParseLines([], unquote) == ParseLines([[]], unquote) == Some(map[])
  {
    var blank: seq<string> := [""];
    assert blank[..0] == [];
    assert Size([]) == 0;
  }

  // ---------------------------------------------------------------- single-quoted values

  /** Nothing to trim. */
  predicate IsTrimmed(s: string) {
    s != [] ==> !IsSpace(s[0]) && !IsSpace(s[|s| - 1])
  }

  lemma TrimTrimmed(s: string)
    requires IsTrimmed(s)
    ensures TrimSpace(s) == s
  {
  }

  lemma NameIsTrimmed(name: string)
    requires IsName(name)
    ensures IsTrimmed(name) && name[0] != '#'
  {
    assert NameChar(name[0]) && NameChar(name[|name| - 1]);
  }

  lemma {:induction false} ClosingSingle(v: string, i: nat)
    requires '\'' !in v && 1 <= i <= |v| + 1
    ensures ClosingQuote("'" + v + "'", i) == Some(|v| + 1)
    decreases |v| - i
  {
    var value := "'" + v + "'";
    if i <= |v| {
      assert value[i] == v[i - 1];
      ClosingSingle(v, i + 1);
    }
  }

  lemma QuotedSingle(v: string, unquote: Unquoter)
    requires '\'' !in v
    ensures Quoted("'" + v + "'", unquote) == Some(v)
  {
    var value := "'" + v + "'";
    ClosingSingle(v, 1);
    assert value[|v| + 2..] == [];
    assert value[1..|v| + 1] == v;
  }

  lemma FindEquals(name: string, value: string)
    requires '=' !in name
    ensures Find(name + "=" + value, '=') == |name|
  {
    var text := name + "=" + value;
    assert text[|name|] == '=';
    forall i | 0 <= i < |name| ensures text[i] != '=' {
      assert text[i] == name[i];
    }
  }

  /** A single-quoted assignment is read literally. */
  lemma SingleQuotedLine(name: string, v: string, unquote: Unquoter)
    requires IsName(name) && '\'' !in v
    ensures ParseLine(name + "=" + ("'" + v + "'"), unquote) == Assign(name, v)
  {
    var value := "'" + v + "'";
    var line := name + "=" + value;
    NameIsTrimmed(name);
    NoEquals(name);
    FindEquals(name, value);
    QuotedSingle(v, unquote);
    assert line[0] == name[0] && line[|line| - 1] == '\'';
    TrimTrimmed(line);
    TrimTrimmed(name);
    TrimTrimmed(value);
    assert line[..|name|] == name && line[|name| + 1..] == value;
    NotExport(name, value);
  }

  lemma NoEquals(name: string)
    requires IsName(name)
    ensures '=' !in name && ' ' !in name && '\n' !in name
  {
    forall i | 0 <= i < |name| ensures name[i] != '=' && name[i] != ' ' && name[i] != '\n' {
      assert NameChar(name[i]);
    }
  }

  /** No assignment to a name starts with "export ". */
  lemma NotExport(name: string, value: string)
    requires IsName(name)
    ensures !(EXPORT <= name + "=" + value)
  {
    var line := name + "=" + value;
    NoEquals(name);
    if |line| > 6 {
      if |name| > 6 {
        assert line[6] == name[6];
      } else if |name| == 6 {
        assert line[6] == '=';
      } else {
        assert line[|name|] == '=';
      }
    }
  }

  /**
    For every name that may be set and every value without newline, NUL and single quote,
    `K='v'` parses to exactly v, unless the line exceeds the limit; then it is an error.
  */
  lemma SingleQuotedRoundTrip(name: string, v: string, unquote: Unquoter)
    requires IsName(name) && !Environment.IsInternal(name)
    requires '\'' !in v && '\n' !in v && '\0' !in v
    ensures var line := name + "=" + ("'" + v + "'");
      Parse(line, unquote) == if Size(line) < LINE_LIMIT then Some(map[name := v]) else None
  {
    var line := name + "=" + ("'" + v + "'");
    NoEquals(name);
    assert '\n' !in line && line[|line| - 1] == '\'';
    SingleQuotedLine(name, v, unquote);
    hide ParseLine, Size, IsName, RawLines, Find, Quoted, ParseLines;
    OneLine(line, unquote);
  }

  /** A text without a newline or a final carriage return is one line. */
  lemma OneLine(line: string, unquote: Unquoter)
    requires '\n' !in line && line != [] && line[|line| - 1] != '\r'
    ensures ParseLines(RawLines(line), unquote)
         == if Size(line) >= LINE_LIMIT then None
            else match ParseLine(line, unquote) case Blank => Some(map[]) case Bad => None case Assign(k, v) => Some(map[k := v])
  {
    hide ParseLine, Size;
    assert RawLines(line) == [line];
    hide RawLines, ParseLines, Find;
    NoLines(unquote);
    ParseLinesSnoc([], line, unquote);
    assert [] + [line] == [line];
  }

  lemma NoLines(unquote: Unquoter)
    ensures ParseLines([], unquote) == Some(map[])
  {
  }

  // ---------------------------------------------------------------- unquoted values

  /** A plain value: nothing to trim, no quote at its start, and no number sign where a comment could begin. */
  predicate IsPlain(v: string) {
    && IsTrimmed(v) && (v != [] ==> v[0] != '"' && v[0] != '\'')
    && forall i :: 0 <= i < |v| && v[i] == '#' ==> i > 0 && v[i - 1] != ' ' && v[i - 1] != '\t'
  }

  lemma {:induction false} NoComment(v: string, i: nat)
    requires IsPlain(v) && i <= |v|
    ensures CommentStart(v, i) == |v|
    decreases |v| - i
  {
    if i < |v| { NoComment(v, i + 1); }
  }

  lemma {:induction false} CommentAfter(v: string, comment: string, i: nat)
    requires IsPlain(v) && i <= |v| + 1
    ensures CommentStart(v + " #" + comment, i) == |v| + 1
    decreases |v| + 1 - i
  {
    var value := v + " #" + comment;
    assert value[|v|] == ' ' && value[|v| + 1] == '#' && forall k :: 0 <= k < |v| ==> value[k] == v[k];
    if i <= |v| { CommentAfter(v, comment, i + 1); }
  }

  lemma TrimBlank(v: string)
    requires IsTrimmed(v) && v != []
    ensures TrimSpace(v + " ") == v
  {
    var padded := v + " ";
    assert padded[0] == v[0] && padded[|padded| - 1] == ' ' && padded[..|padded| - 1] == v;
    assert TrimLeft(padded) == padded;
    assert TrimRight(padded) == TrimRight(v) == v;
  }

  /** What is left of the value if a comment follows it. */
  lemma UnquotedBeforeComment(v: string, comment: string)
    requires IsPlain(v) && v != []
    ensures Unquoted(v + " #" + comment) == v
  {
    var value := v + " #" + comment;
    CommentAfter(v, comment, 0);
    TrimBlank(v);
    assert value[..|v| + 1] == v + " ";
  }

  lemma UnquotedComment(comment: string)
    ensures Unquoted("#" + comment) == []
  {
    var value := "#" + comment;
    assert value[0] == '#' && value[..0] == [];
  }

  /** A line `name=text` whose text needs no trimming at its end. */
  lemma AssignmentLine(name: string, text: string, unquote: Unquoter)
    requires IsName(name) && (text != [] ==> !IsSpace(text[|text| - 1]))
    requires var value := TrimSpace(text); value != [] ==> value[0] != '"' && value[0] != '\''
    ensures ParseLine(name + "=" + text, unquote) == Assign(name, Unquoted(TrimSpace(text)))
  {
    var line := name + "=" + text;
    NameIsTrimmed(name);
    NoEquals(name);
    FindEquals(name, text);
    NotExport(name, text);
    assert line[0] == name[0] && line[|line| - 1] == if text == [] then '=' else text[|text| - 1];
    TrimTrimmed(line);
    TrimTrimmed(name);
    assert line[..|name|] == name && line[|name| + 1..] == text;
  }

  /** A plain value is read as it is, with or without a comment after it. */
  lemma PlainLine(name: string, v: string, unquote: Unquoter)
    requires IsName(name) && IsPlain(v)
    ensures ParseLine(name + "=" + v, unquote) == Assign(name, v)
  {
    TrimTrimmed(v);
    NoComment(v, 0);
    hide IsName, Find;
    AssignmentLine(name, v, unquote);
  }

  lemma CommentedLine(name: string, v: string, comment: string, unquote: Unquoter)
    requires IsName(name) && IsPlain(v) && (comment != [] ==> !IsSpace(comment[|comment| - 1]))
    ensures ParseLine(name + "=" + (v + " #" + comment), unquote) == Assign(name, v)
  {
    var text := v + " #" + comment;
    assert text[|text| - 1] == if comment == [] then '#' else comment[|comment| - 1];
    if v == [] {
      assert text == " " + ("#" + comment) && text[1..] == "#" + comment;
      TrimTrimmed("#" + comment);
      assert TrimLeft(text) == TrimLeft("#" + comment) == "#" + comment;
      UnquotedComment(comment);
    } else {
      TrimTrimmed(text);
      UnquotedBeforeComment(v, comment);
    }
    hide IsName, Find, IsPlain, Unquoted;
    AssignmentLine(name, text, unquote);
  }

  /** The word `export` before an assignment makes no difference. */
  lemma ExportIsDropped(line: string, unquote: Unquoter)
    requires line != [] && IsTrimmed(line) && line[0] != '#' && !(EXPORT <= line)
    ensures ParseLine(EXPORT + line, unquote) == ParseLine(line, unquote)
  {
    var exported := EXPORT + line;
    assert !IsSpace('e');
    hide IsSpace, ParseAssignment, TrimSpace;
    assert exported[0] == 'e' && exported[|exported| - 1] == line[|line| - 1];
    TrimTrimmed(line);
    TrimTrimmed(exported);
    assert exported[|EXPORT|..] == line;
  }

  /** A file of one assignment. */
  lemma OneAssignment(line: string, name: string, v: string, unquote: Unquoter)
    requires '\n' !in line && line != [] && line[|line| - 1] != '\r'
    requires ParseLine(line, unquote) == Assign(name, v)
    requires IsName(name) && !Environment.IsInternal(name) && '\0' !in v
    ensures Parse(line, unquote) == if Size(line) < LINE_LIMIT then Some(map[name := v]) else None
  {
    hide ParseLine, Size, IsName, RawLines, ParseLines, Environment.Validates, Environment.IsInternal;
    OneIsValid(name, v);
    OneLine(line, unquote);
  }

  lemma OneIsValid(name: string, v: string)
    requires IsName(name) && !Environment.IsInternal(name) && '\0' !in v
    ensures Environment.Validates(map[name := v])
  {
  }

  lemma NoNewline(name: string, text: string)
    requires IsName(name) && '\n' !in text && (text != [] ==> text[|text| - 1] != '\r')
    ensures var line := name + "=" + text; '\n' !in line && line != [] && line[|line| - 1] != '\r'
  {
    NoEquals(name);
    hide IsName;
    var line := name + "=" + text;
    assert line[|line| - 1] == if text == [] then '=' else text[|text| - 1];
  }

  lemma EndsPlainly(v: string)
    requires IsPlain(v)
    ensures v != [] ==> v[|v| - 1] != '\r'
  {
  }

  lemma EndsWithComment(v: string, comment: string)
    requires '\n' !in v && '\n' !in comment && (comment != [] ==> !IsSpace(comment[|comment| - 1]))
    ensures var text := v + " #" + comment; '\n' !in text && text != [] && text[|text| - 1] != '\r'
  {
    var text := v + " #" + comment;
    assert text[|text| - 1] == if comment == [] then '#' else comment[|comment| - 1];
  }

  /**
    For every name that may be set and every plain value without newline and NUL, `K=v` parses to
    exactly v, unless the line exceeds the limit.
  */
  lemma PlainRoundTrip(name: string, v: string, unquote: Unquoter)
    requires IsName(name) && !Environment.IsInternal(name) && IsPlain(v) && '\n' !in v && '\0' !in v
    ensures var line := name + "=" + v;
      Parse(line, unquote) == if Size(line) < LINE_LIMIT then Some(map[name := v]) else None
  {
    hide ParseLine, Parse, Size, IsName, IsPlain, Environment.IsInternal;
    EndsPlainly(v);
    PlainLine(name, v, unquote);
    NoNewline(name, v);
    OneAssignment(name + "=" + v, name, v, unquote);
  }

  /** The same with any comment after it. */
  lemma CommentedRoundTrip(name: string, v: string, comment: string, unquote: Unquoter)
    requires IsName(name) && !Environment.IsInternal(name) && IsPlain(v)
    requires '\n' !in v && '\0' !in v && '\n' !in comment && (comment != [] ==> !IsSpace(comment[|comment| - 1]))
    ensures var line := name + "=" + (v + " #" + comment);
      Parse(line, unquote) == if Size(line) < LINE_LIMIT then Some(map[name := v]) else None
  {
    hide ParseLine, Parse, Size, IsName, IsPlain, Environment.IsInternal;
    var text := v + " #" + comment;
    EndsWithComment(v, comment);
    CommentedLine(name, v, comment, unquote);
    NoNewline(name, text);
    OneAssignment(name + "=" + text, name, v, unquote);
  }
}
