/** Extraction loses white space only: every other character of a page survives, in order. */
module TextConservation {
  import opened Prelude
  import opened PythonText
  import opened Extraction

  function InkOf(lines: seq<string>): string {
    if lines == [] then "" else Ink(lines[0]) + InkOf(lines[1..])
  }

  lemma {:induction false} InkConcat(a: string, b: string)
    ensures Ink(a + b) == Ink(a) + Ink(b)
  {
    if a == "" {
      assert a + b == b;
    } else {
      InkConcat(a[1..], b);
      assert (a + b)[1..] == a[1..] + b;
    }
  }

  lemma Regrouped(a: string, b: string, c: string)
    ensures a + (b + c) == (a + b) + c
  {}

  lemma {:induction false} InkOfConcat(a: seq<string>, b: seq<string>)
    ensures InkOf(a + b) == InkOf(a) + InkOf(b)
  {
    hide Ink;
    if a == [] {
      assert a + b == b;
    } else {
      InkOfConcat(a[1..], b);
      assert (a + b)[1..] == a[1..] + b && (a + b)[0] == a[0];
      Regrouped(Ink(a[0]), InkOf(a[1..]), InkOf(b));
    }
  }

  lemma InkOfOne(line: string)
    ensures InkOf([line]) == Ink(line)
  {}

  lemma {:induction false} BlankHasNoInk(s: string)
    requires IsBlank(s)
    ensures Ink(s) == ""
  {
    if s != "" {
      assert s[0] in s && forall c | c in s[1..] :: c in s;
      BlankHasNoInk(s[1..]);
    }
  }

  lemma {:induction false} TrimLeftKeepsInk(s: string)
    ensures Ink(TrimLeft(s)) == Ink(s)
  {
    if s != "" && IsSpace(s[0]) { TrimLeftKeepsInk(s[1..]); }
  }

  lemma {:induction false} TrimRightKeepsInk(s: string)
    ensures Ink(TrimRight(s)) == Ink(s)
  {
    if s != "" && IsSpace(s[|s| - 1]) {
      var last := |s| - 1;
      TrimRightKeepsInk(s[..last]);
      assert s == s[..last] + [s[last]];
      InkConcat(s[..last], [s[last]]);
    }
  }

  lemma StripKeepsInk(s: string)
    ensures Ink(Strip(s)) == Ink(s)
  {
    TrimRightKeepsInk(s);
    TrimLeftKeepsInk(TrimRight(s));
  }

  lemma {:induction false} JoinKeepsInk(separator: string, parts: seq<string>)
    requires IsBlank(separator)
    ensures Ink(Join(separator, parts)) == InkOf(parts)
  {
    if |parts| == 1 {
      assert parts == [parts[0]];
      InkOfOne(parts[0]);
    } else if |parts| > 1 {
      JoinKeepsInk(separator, parts[1..]);
      BlankHasNoInk(separator);
      InkConcat(parts[0], separator);
      InkConcat(parts[0] + separator, Join(separator, parts[1..]));
    }
  }

  lemma {:induction false} NewlinesKeepInk(s: string)
    ensures Ink(CanonicalNewlines(s)) == Ink(s)
    decreases |s|
  {
    if s != "" {
      if s[0] == '\r' && |s| > 1 && s[1] == '\n' {
        NewlinesKeepInk(s[2..]);
        assert Ink(s) == Ink(s[1..]) && Ink(s[1..]) == Ink(s[1..][1..]) && s[1..][1..] == s[2..];
      } else {
        NewlinesKeepInk(s[1..]);
      }
    }
  }

  lemma {:induction false} SplitKeepsInk(s: string)
    ensures InkOf(Split(s)) == Ink(s)
  {
    if s != "" {
      var rest := Split(s[1..]);
      SplitKeepsInk(s[1..]);
      if s[0] == '\n' {
        InkOfConcat([""], rest);
        InkOfOne("");
      } else {
        FirstCharacter(s[0], rest);
      }
    }
  }

  lemma FirstCharacter(c: char, rest: seq<string>)
    requires rest != []
    ensures InkOf([[c] + rest[0]] + rest[1..]) == Ink([c]) + InkOf(rest)
    ensures Ink([c]) == if IsSpace(c) then "" else [c]
  {
    assert Ink([c]) == if IsSpace(c) then "" else [c] by { assert [c][1..] == ""; }
    hide Ink;
    InkConcat([c], rest[0]);
    InkOfConcat([[c] + rest[0]], rest[1..]);
    InkOfOne([c] + rest[0]);
    Regrouped(Ink([c]), Ink(rest[0]), InkOf(rest[1..]));
  }

  lemma {:induction false} TrimmingKeepsInk(lines: seq<string>)
    ensures InkOf(TrimmedLines(lines)) == InkOf(lines)
  {
    if lines != [] {
      TrimmingKeepsInk(lines[1..]);
      TrimRightKeepsInk(lines[0]);
      assert TrimmedLines(lines)[1..] == TrimmedLines(lines[1..]);
    }
  }

  lemma {:induction false} DropLeadingKeepsInk(lines: seq<string>)
    ensures InkOf(DropLeading(lines)) == InkOf(lines)
  {
    if lines != [] && lines[0] == "" { DropLeadingKeepsInk(lines[1..]); }
  }

  lemma {:induction false} DropTrailingKeepsInk(lines: seq<string>)
    ensures InkOf(DropTrailing(lines)) == InkOf(lines)
  {
    hide InkOf;
    if lines != [] && lines[|lines| - 1] == "" {
      var last := |lines| - 1;
      DropTrailingKeepsInk(lines[..last]);
      assert lines == lines[..last] + [""];
      InkOfConcat(lines[..last], [""]);
      InkOfOne("");
    }
  }

  lemma {:induction false} WordsKeepInk(lines: seq<string>)
    ensures InkOf(Words(lines)) == InkOf(lines)
  {
    if lines != [] {
      var last := |lines| - 1;
      WordsKeepInk(lines[..last]);
      assert lines == lines[..last] + [lines[last]];
      InkOfConcat(lines[..last], [lines[last]]);
      InkOfOne(lines[last]);
      if IsBlank(lines[last]) {
        BlankHasNoInk(lines[last]);
        assert Words(lines) == Words(lines[..last]);
      } else {
        StripKeepsInk(lines[last]);
        InkOfOne(Strip(lines[last]));
        InkOfConcat(Words(lines[..last]), [Strip(lines[last])]);
      }
    }
  }

  /** The words of the normalized lines, joined by spaces, have the characters of the page that are no white space, in order. */
  lemma WordsHaveThePagesInk(value: string)
    ensures Ink(Join(" ", Words(NormalizedLines(value)))) == Ink(value)
  {
    hide Join, Words, Ink, InkOf, TrimmedLines, Split, DropLeading, DropTrailing, CanonicalNewlines;
    var split := Split(CanonicalNewlines(value));
    NewlinesKeepInk(value);
    SplitKeepsInk(CanonicalNewlines(value));
    TrimmingKeepsInk(split);
    DropLeadingKeepsInk(TrimmedLines(split));
    DropTrailingKeepsInk(DropLeading(TrimmedLines(split)));
    WordsKeepInk(NormalizedLines(value));
    JoinKeepsInk(" ", Words(NormalizedLines(value)));
  }
}
