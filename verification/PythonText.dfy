/** The parts of Python's `str` that the validators and the extractor rely on. */
module PythonText {
  import opened Prelude

  /** `str.isspace` for one character. */
  predicate IsSpace(c: char) {
    var n := c as int;
    9 <= n <= 13 || 28 <= n <= 32 || n == 0x85 || n == 0xA0 || n == 0x1680 || 0x2000 <= n <= 0x200A
    || n == 0x2028 || n == 0x2029 || n == 0x202F || n == 0x205F || n == 0x3000
  }

  /** `not value.strip()` */
  predicate IsBlank(s: string) {
    forall c | c in s :: IsSpace(c)
  }

  function TrimLeft(s: string): (r: string)
    ensures r == "" || !IsSpace(r[0])
    ensures IsBlank(s) <==> r == ""
    ensures |r| <= |s|
  {
    if s == "" then ""
    else if IsSpace(s[0]) then assert s == [s[0]] + s[1..]; TrimLeft(s[1..])
    else assert s[0] in s; s
  }

  /** `value.rstrip()` */
  function TrimRight(s: string): (r: string)
    ensures r == "" || !IsSpace(r[|r| - 1])
    ensures IsBlank(s) <==> r == ""
    ensures r <= s
  {
    if s == "" then ""
    else if IsSpace(s[|s| - 1]) then assert s == s[..|s| - 1] + [s[|s| - 1]]; TrimRight(s[..|s| - 1])
    else assert s[|s| - 1] in s; s
  }

  /** `value.strip()` */
  function Strip(s: string): (r: string)
    ensures IsBlank(s) <==> r == ""
    ensures r == "" || !IsSpace(r[0])
    ensures |r| <= |s|
  {
    TrimLeft(TrimRight(s))
  }

  lemma {:induction false} TrimLeftIsSuffix(s: string) returns (i: nat)
    ensures i <= |s| && TrimLeft(s) == s[i..] && IsBlank(s[..i])
  {
    i := 0;
    if s != "" && IsSpace(s[0]) {
      var rest := TrimLeftIsSuffix(s[1..]);
      i := rest + 1;
      assert s[i..] == s[1..][rest..] && s[..i] == [s[0]] + s[1..][..rest];
    }
  }

  lemma BlankOneMore(a: string, c: char)
    requires IsBlank(a) && IsSpace(c)
    ensures IsBlank(a + [c])
  {
    hide IsSpace;
  }

  lemma {:induction false} TrimRightIsPrefix(s: string) returns (j: nat)
    ensures j <= |s| && TrimRight(s) == s[..j] && IsBlank(s[j..])
  {
    hide IsSpace, IsBlank;
    j := |s|;
    NothingIsBlank();
    assert s[|s|..] == "" && s[..|s|] == s;
    if s != "" && IsSpace(s[|s| - 1]) {
      var last := |s| - 1;
      j := TrimRightIsPrefix(s[..last]);
      BlankOneMore(s[..last][j..], s[last]);
      assert s[..j] == s[..last][..j];
      assert s[j..] == s[..last][j..] + [s[last]];
    }
  }

  lemma NothingIsBlank()
    ensures IsBlank("")
  {}

  /** Stripping takes the white space at both ends away, all of it and nothing else. */
  lemma StripIsTheMiddle(s: string) returns (i: nat, j: nat)
    ensures i <= j <= |s| && Strip(s) == s[i..j] && IsBlank(s[..i]) && IsBlank(s[j..])
    ensures i < j ==> !IsSpace(s[i]) && !IsSpace(s[j - 1])
  {
    hide IsBlank;
    j := TrimRightIsPrefix(s);
    i := TrimLeftIsSuffix(s[..j]);
    assert s[..j][i..] == s[i..j] && s[..j][..i] == s[..i];
    if i < j { assert TrimRight(s)[j - 1] == s[j - 1]; }
  }

  /** `separator.join(parts)` */
  function Join(separator: string, parts: seq<string>): string {
    if parts == [] then ""
    else if |parts| == 1 then parts[0]
    else parts[0] + separator + Join(separator, parts[1..])
  }

  /** The characters that are no white space, in order. */
  function Ink(s: string): string {
    if s == "" then ""
    else (if IsSpace(s[0]) then "" else [s[0]]) + Ink(s[1..])
  }
}
