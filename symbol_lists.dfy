/** Symbol lists and the split policies that turn a symbol file's text into
    symbols. Text is a sequence of Unicode code points (Dafny's `char`). */
module SymbolLists {
  import opened Wrappers
  import opened Identifiers

  /** How the text of a symbol file becomes symbols. */
  datatype SplitType = CodePoint | Line

  /** The declared (enum constant) name of a split type. */
  function SplitTypeName(t: SplitType): string {
    match t
    case CodePoint => "CODEPOINT"
    case Line => "LINE"
  }

  /** Case-sensitive lookup of a split type by name, falling back to
      `fallback` when the name is absent or not a declared one. */
  function SplitTypeOrDefault(name: Option<string>, fallback: SplitType): (r: SplitType)
    ensures forall t :: name == Some(SplitTypeName(t)) ==> r == t
    ensures name != Some(SplitTypeName(CodePoint)) && name != Some(SplitTypeName(Line)) ==> r == fallback
  {
    if name == Some("CODEPOINT") then CodePoint
    else if name == Some("LINE") then Line
    else fallback
  }

  /** Concatenation of a sequence of strings. */
  function Concat(ss: seq<string>): string {
    if ss == [] then [] else ss[0] + Concat(ss[1..])
  }

  /** One single-code-point symbol per code point of `text`, in order. */
  function CodePoints(text: string): (r: seq<string>)
    ensures |r| == |text|
    ensures forall i :: 0 <= i < |r| ==> r[i] == [text[i]]
  {
    if text == [] then [] else [[text[0]]] + CodePoints(text[1..])
  }

  /** Splitting by code point loses nothing: the symbols spell the text again. */
  lemma {:induction false} CodePointsRoundTrip(text: string)
    ensures Concat(CodePoints(text)) == text
  {
    if text != [] {
      CodePointsRoundTrip(text[1..]);
      assert CodePoints(text)[1..] == CodePoints(text[1..]);
    }
  }

  /** A string is among the code-point symbols of `text` iff it is one code
      point long and that code point occurs in `text`. */
  lemma CodePointMembership(text: string, s: string)
    ensures s in CodePoints(text) <==> |s| == 1 && s[0] in text
  {
    var r := CodePoints(text);
    if |s| == 1 && s[0] in text {
      var i :| 0 <= i < |text| && text[i] == s[0];
      assert r[i] == s;
    }
  }

  /** A fire emoji, a heart and a letter are four code points: the heart
      emoji is U+2764 followed by the variation selector U+FE0F. */
  lemma FireHeartCodePoints()
    ensures CodePoints("\U{1F525}\U{2764}\U{FE0F}" + "A") == ["\U{1F525}", "\U{2764}", "\U{FE0F}", "A"]
  {
  }

  /** Length of the longest prefix of `s` without a line feed. */
  function LineLength(s: string): (n: nat)
    ensures n <= |s|
  {
    if s == [] || s[0] == '\n' then 0 else 1 + LineLength(s[1..])
  }

  /** The first line ends at the first line feed, or with the text. */
  lemma {:induction false} LineLengthSpec(s: string)
    ensures forall j :: 0 <= j < LineLength(s) ==> s[j] != '\n'
    ensures LineLength(s) < |s| ==> s[LineLength(s)] == '\n'
  {
    if s != [] && s[0] != '\n' {
      LineLengthSpec(s[1..]);
      forall j | 0 < j < LineLength(s) ensures s[j] != '\n' {
        assert s[j] == s[1..][j - 1];
      }
    }
  }

  /** The lines of `s`, as a line reader yields them: a final line feed does
      not start an empty last line. */
  function Lines(s: string): seq<string>
    decreases |s|
  {
    if s == [] then []
    else
      var n := LineLength(s);
      if n == |s| then [s] else [s[..n]] + Lines(s[n + 1..])
  }

  /** No line holds a line feed. */
  lemma {:induction false} LinesNoLineFeed(s: string)
    ensures forall i :: 0 <= i < |Lines(s)| ==> '\n' !in Lines(s)[i]
    decreases |s|
  {
    if s != [] {
      var n := LineLength(s);
      LineLengthSpec(s);
      assert '\n' !in s[..n];
      if n < |s| {
        LinesNoLineFeed(s[n + 1..]);
        var ls := Lines(s);
        assert ls == [s[..n]] + Lines(s[n + 1..]);
        forall i | 0 < i < |ls| ensures '\n' !in ls[i] {
          assert ls[i] == Lines(s[n + 1..])[i - 1];
        }
      }
    }
  }

  /** Each line followed by a line feed. */
  function Terminated(lines: seq<string>): string {
    if lines == [] then [] else lines[0] + "\n" + Terminated(lines[1..])
  }

  /** Line splitting loses nothing but a missing final line feed. */
  lemma {:induction false} LinesRoundTrip(s: string)
    ensures Terminated(Lines(s)) == if s == [] || s[|s| - 1] == '\n' then s else s + "\n"
    decreases |s|
  {
    if s != [] {
      var n := LineLength(s);
      LineLengthSpec(s);
      if n == |s| {
        assert s[|s| - 1] != '\n';
        assert Terminated(Lines(s)) == s + "\n" + Terminated([]);
      } else {
        var line, rest := s[..n], s[n + 1..];
        if rest != [] {
          assert rest[|rest| - 1] == s[n + 1 + (|rest| - 1)] == s[|s| - 1];
        }
        assert s == line + "\n" + rest;
        LinesRoundTrip(rest);
        var t := Terminated(Lines(rest));
        LinesTerminatedStep(s, line, rest, t);
        if rest != [] && rest[|rest| - 1] != '\n' {
          assert line + "\n" + (rest + "\n") == s + "\n";
        }
      }
    }
  }

  /** One line split off the front, terminated in front of the rest. */
  lemma LinesTerminatedStep(s: string, line: string, rest: string, t: string)
    requires s != [] && LineLength(s) < |s|
    requires line == s[..LineLength(s)] && rest == s[LineLength(s) + 1..]
    requires t == Terminated(Lines(rest))
    ensures Terminated(Lines(s)) == line + "\n" + t
  {
    var ls := Lines(s);
    assert ls == [line] + Lines(rest);
    assert ls[1..] == Lines(rest);
  }

  /** The symbols a split policy makes of a file's text. */
  function Split(t: SplitType, text: string): seq<string> {
    match t
    case CodePoint => CodePoints(text)
    case Line => Lines(text)
  }

  /** A named, ordered list of symbols. Lists read from symbol files are never
      changed after construction; the favorites and custom-kaomojis lists are
      cleared and refilled in place. */
  class SymbolList {
    const id: Identifier
    var symbols: seq<string>

    constructor (id: Identifier, symbols: seq<string>)
      ensures this.id == id && this.symbols == symbols
    {
      this.id := id;
      this.symbols := symbols;
    }

    /** Exact membership of a symbol. */
    predicate Contains(s: string)
      reads this
    {
      s in symbols
    }

    method Clear()
      modifies this
      ensures symbols == []
    {
      symbols := [];
    }

    method AddSymbol(s: string)
      modifies this
      ensures symbols == old(symbols) + [s]
    {
      symbols := symbols + [s];
    }

    /** Adds one single-code-point symbol per code point of `text`. */
    method AddCodePoints(text: string)
      modifies this
      ensures symbols == old(symbols) + CodePoints(text)
    {
      for i := 0 to |text|
        invariant symbols == old(symbols) + CodePoints(text[..i])
      {
        AddSymbol([text[i]]);
        assert text[..i + 1] == text[..i] + [text[i]];
      }
      assert text[..|text|] == text;
    }

    /** Adds each of `ss`, in order. */
    method AddAll(ss: seq<string>)
      modifies this
      ensures symbols == old(symbols) + ss
    {
      for i := 0 to |ss|
        invariant symbols == old(symbols) + ss[..i]
      {
        AddSymbol(ss[i]);
        assert ss[..i + 1] == ss[..i] + [ss[i]];
      }
      assert ss[..|ss|] == ss;
    }
  }
}
