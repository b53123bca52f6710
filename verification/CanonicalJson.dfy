/** JSON values as Python holds them, and the canonical text of the F-002 subset (RFC 8785 sections 3.2.1 to 3.2.4). */
module CanonicalJson {
  import opened Prelude

  /** `Foreign` is any other Python value: a float, bytes, a dictionary with a key that is no string. */
  datatype Json =
    | Null
    | Bool(b: bool)
    | Int(n: int)
    | Str(s: string)
    | Arr(items: seq<Json>)
    | Obj(fields: map<string, Json>)
    | Foreign(hashable: bool)

  predicate InF002Subset(j: Json) {
    match j
    case Arr(items) => forall x | x in items :: InF002Subset(x)
    case Obj(fields) => forall k | k in fields :: InF002Subset(fields[k])
    case Foreign(_) => false
    case _ => true
  }

  datatype JsonError = OutsideSubset

  /** `canonical_json_bytes`, before UTF-8 encoding. */
  ghost function CanonicalText(j: Json): (r: Result<string, JsonError>) {
    if InF002Subset(j) then Ok(Print(j)) else Err(OutsideSubset)
  }

  /* ---------- key order ---------- */

  predicate Before(a: string, b: string) {
    b != "" && (a == "" || a[0] < b[0] || (a[0] == b[0] && Before(a[1..], b[1..])))
  }

  lemma {:induction false} BeforeIsTotal(a: string, b: string)
    ensures a == b || Before(a, b) || Before(b, a)
  {
    if a != "" && b != "" && a[0] == b[0] {
      BeforeIsTotal(a[1..], b[1..]);
      assert a == [a[0]] + a[1..] && b == [b[0]] + b[1..];
    }
  }

  lemma {:induction false} BeforeIsTransitive(a: string, b: string, c: string)
    requires Before(a, b) && Before(b, c)
    ensures Before(a, c)
  {
    if a != "" && a[0] == b[0] == c[0] {
      BeforeIsTransitive(a[1..], b[1..], c[1..]);
    }
  }

  ghost predicate IsLeast(least: string, keys: set<string>) {
    least in keys && forall x | x in keys :: x == least || Before(least, x)
  }

  /** The least of a set is the lesser of any member and the least of the others. */
  lemma LeastOfMore(any: string, least: string, others: set<string>)
    requires IsLeast(least, others) && any !in others
    ensures IsLeast(if Before(any, least) then any else least, others + {any})
  {
    BeforeIsTotal(any, least);
    if Before(any, least) {
      forall x | x in others ensures Before(any, x) {
        if x != least { BeforeIsTransitive(any, least, x); }
      }
    }
  }

  lemma {:induction false} LeastKeyExists(keys: set<string>)
    requires keys != {}
    ensures exists k :: IsLeast(k, keys)
  {
    var any :| any in keys;
    var others := keys - {any};
    assert keys == others + {any};
    if others == {} {
      assert IsLeast(any, keys);
    } else {
      hide IsLeast;
      LeastKeyExists(others);
      var least :| IsLeast(least, others);
      LeastOfMore(any, least, others);
    }
  }

  /** The order of keys is that of their code points at the first place where they differ, a prefix before what extends it. */
  lemma {:induction false} BeforeIsByCodePoint(a: string, b: string)
    ensures Before(a, b) <==>
      exists n :: 0 <= n <= |a| && n < |b| && a[..n] == b[..n] && (n == |a| || a[n] < b[n])
  {
    if a != "" && b != "" && a[0] == b[0] {
      BeforeIsByCodePoint(a[1..], b[1..]);
      if n :| 0 <= n <= |a| && n < |b| && a[..n] == b[..n] && (n == |a| || a[n] < b[n]) {
        assert n > 0;
        assert a[1..][..n - 1] == a[..n][1..] && b[1..][..n - 1] == b[..n][1..];
      }
      if m :| 0 <= m <= |a[1..]| && m < |b[1..]| && a[1..][..m] == b[1..][..m] && (m == |a[1..]| || a[1..][m] < b[1..][m]) {
        assert a[..m + 1] == [a[0]] + a[1..][..m] && b[..m + 1] == [b[0]] + b[1..][..m];
      }
    } else if b != "" {
      assert a[..0] == b[..0];
    }
  }

  predicate Ascending(ks: seq<string>) {
    forall i, j :: 0 <= i < j < |ks| ==> Before(ks[i], ks[j])
  }

  /** The keys of an object in the order `sort_keys=True` writes them. */
  ghost function SortedKeys(keys: set<string>): (ks: seq<string>)
    ensures Ascending(ks)
    ensures forall k :: k in ks <==> k in keys
  {
    if keys == {} then []
    else
      LeastKeyExists(keys);
      var least :| IsLeast(least, keys);
      [least] + SortedKeys(keys - {least})
  }

  /* ---------- printer ---------- */

  ghost function Print(j: Json): string
    requires InF002Subset(j)
    decreases j, 0
  {
    match j
    case Null => "null"
    case Bool(b) => if b then "true" else "false"
    case Int(n) => if n < 0 then "-" + Digits(-n) else Digits(n)
    case Str(s) => Quote(s)
    case Arr(items) => "[" + PrintItems(items) + "]"
    case Obj(fields) => "{" + PrintFields(j, SortedKeys(fields.Keys)) + "}"
  }

  ghost function PrintItems(items: seq<Json>): string
    requires forall x | x in items :: InF002Subset(x)
    decreases items, 0
  {
    if items == [] then ""
    else if |items| == 1 then Print(items[0])
    else Print(items[0]) + "," + PrintItems(items[1..])
  }

  ghost function PrintField(j: Json, k: string): string
    requires j.Obj? && InF002Subset(j) && k in j.fields
    decreases j, 0, 0
  {
    Quote(k) + ":" + Print(j.fields[k])
  }

  ghost function PrintFields(j: Json, ks: seq<string>): string
    requires j.Obj? && InF002Subset(j) && forall k | k in ks :: k in j.fields
    decreases j, 0, |ks|
  {
    if ks == [] then ""
    else if |ks| == 1 then PrintField(j, ks[0])
    else PrintField(j, ks[0]) + "," + PrintFields(j, ks[1..])
  }

  function Digit(d: nat): char
    requires d < 10
  {
    '0' + d as char
  }

  function Digits(n: nat): (s: string)
    ensures s != "" && forall i :: 0 <= i < |s| ==> '0' <= s[i] <= '9'
  {
    if n < 10 then [Digit(n)] else Digits(n / 10) + [Digit(n % 10)]
  }

  function HexDigit(d: nat): char
    requires d < 16
  {
    if d < 10 then Digit(d) else 'a' + (d - 10) as char
  }

  /** The two-character escapes, then the control characters; everything else is written as it is. */
  function Escape(c: char): string {
    if c == '"' then "\\\""
    else if c == '\\' then "\\\\"
    else if c == '\n' then "\\n"
    else if c == '\r' then "\\r"
    else if c == '\t' then "\\t"
    else if c == 8 as char then "\\b"
    else if c == 12 as char then "\\f"
    else if c < ' ' then "\\u00" + [HexDigit(c as nat / 16), HexDigit(c as nat % 16)]
    else [c]
  }

  function EscapeAll(s: string): string {
    if s == "" then "" else Escape(s[0]) + EscapeAll(s[1..])
  }

  function Quote(s: string): string {
    "\"" + EscapeAll(s) + "\""
  }

  /* ---------- parser ---------- */

  type Parsed<T> = Option<(T, string)>

  predicate IsDigit(c: char) { '0' <= c <= '9' }

  function DigitValue(c: char): nat
    requires IsDigit(c)
  {
    c as int - '0' as int
  }

  function HexValue(c: char): Option<nat> {
    if IsDigit(c) then Some(DigitValue(c))
    else if 'a' <= c <= 'f' then Some(c as int - 'a' as int + 10)
    else None
  }

  function ParseHex(s: string): Option<nat>
    requires |s| == 4
  {
    match (HexValue(s[0]), HexValue(s[1]), HexValue(s[2]), HexValue(s[3]))
    case (Some(a), Some(b), Some(c), Some(d)) => Some(((a * 16 + b) * 16 + c) * 16 + d)
    case _ => None
  }

  /** One possibly escaped character of a string literal. */
  function ParseCharacter(s: string): (r: Parsed<char>)
    ensures r.Some? ==> |r.value.1| < |s|
  {
    if s == "" || s[0] == '"' || s[0] < ' ' then None
    else if s[0] != '\\' then Some((s[0], s[1..]))
    else if |s| == 1 then None
    else if s[1] == '"' || s[1] == '\\' then Some((s[1], s[2..]))
    else if s[1] == 'n' then Some(('\n', s[2..]))
    else if s[1] == 'r' then Some(('\r', s[2..]))
    else if s[1] == 't' then Some(('\t', s[2..]))
    else if s[1] == 'b' then Some((8 as char, s[2..]))
    else if s[1] == 'f' then Some((12 as char, s[2..]))
    else if s[1] != 'u' || |s| < 6 then None
    else match ParseHex(s[2..6])
      case Some(code) => if code < 0xD800 then Some((code as char, s[6..])) else None
      case None => None
  }

  /** The rest of a string literal whose opening quote has been read. */
  function ParseString(s: string): (r: Parsed<string>)
    ensures r.Some? ==> |r.value.1| < |s|
    decreases |s|
  {
    if s != "" && s[0] == '"' then Some(("", s[1..]))
    else match ParseCharacter(s)
      case None => None
      case Some((c, after)) =>
        match ParseString(after)
        case None => None
        case Some((cs, rest)) => Some(([c] + cs, rest))
  }

  function DigitPrefix(s: string): (n: nat)
    ensures n <= |s|
    ensures forall i :: 0 <= i < n ==> IsDigit(s[i])
    ensures n < |s| ==> !IsDigit(s[n])
  {
    if s == "" || !IsDigit(s[0]) then 0 else 1 + DigitPrefix(s[1..])
  }

  function DecimalValue(s: string): nat
    requires forall i :: 0 <= i < |s| ==> IsDigit(s[i])
  {
    if s == "" then 0 else DecimalValue(s[..|s| - 1]) * 10 + DigitValue(s[|s| - 1])
  }

  function ParseNatural(s: string): (r: Parsed<nat>)
    ensures r.Some? ==> |r.value.1| < |s|
  {
    var n := DigitPrefix(s);
    if n == 0 then None else Some((DecimalValue(s[..n]), s[n..]))
  }

  function ParseValue(s: string): (r: Parsed<Json>)
    ensures r.Some? ==> |r.value.1| < |s|
    decreases |s|, 0
  {
    if s == "" then None
    else if "null" <= s then Some((Null, s[4..]))
    else if "true" <= s then Some((Bool(true), s[4..]))
    else if "false" <= s then Some((Bool(false), s[5..]))
    else if s[0] == '"' then
      match ParseString(s[1..])
      case None => None
      case Some((cs, rest)) => Some((Str(cs), rest))
    else if s[0] == '[' then
      if "[]" <= s then Some((Arr([]), s[2..])) else
      match ParseItems(s[1..])
      case None => None
      case Some((items, rest)) => Some((Arr(items), rest))
    else if s[0] == '{' then
      if "{}" <= s then Some((Obj(map[]), s[2..])) else
      match ParseFields(s[1..])
      case None => None
      case Some((fields, rest)) => Some((Obj(fields), rest))
    else if s[0] == '-' then
      match ParseNatural(s[1..])
      case None => None
      case Some((n, rest)) => Some((Int(0 - n as int), rest))
    else
      match ParseNatural(s)
      case None => None
      case Some((n, rest)) => Some((Int(n), rest))
  }

  function ParseItems(s: string): (r: Parsed<seq<Json>>)
    ensures r.Some? ==> |r.value.1| < |s|
    decreases |s|, 1
  {
    match ParseValue(s)
    case None => None
    case Some((item, after)) =>
      if after == "" then None
      else if after[0] == ']' then Some(([item], after[1..]))
      else if after[0] != ',' then None
      else match ParseItems(after[1..])
        case None => None
        case Some((items, rest)) => Some(([item] + items, rest))
  }

  function ParseField(s: string): (r: Parsed<(string, Json)>)
    ensures r.Some? ==> |r.value.1| < |s|
    decreases |s|, 1
  {
    if s == "" || s[0] != '"' then None
    else match ParseString(s[1..])
      case None => None
      case Some((k, colon)) =>
        if colon == "" || colon[0] != ':' then None
        else match ParseValue(colon[1..])
          case None => None
          case Some((v, rest)) => Some(((k, v), rest))
  }

  function ParseFields(s: string): (r: Parsed<map<string, Json>>)
    ensures r.Some? ==> |r.value.1| < |s|
    decreases |s|, 2
  {
    match ParseField(s)
    case None => None
    case Some(((k, v), after)) =>
      if after == "" then None
      else if after[0] == '}' then Some((map[k := v], after[1..]))
      else if after[0] != ',' then None
      else match ParseFields(after[1..])
        case None => None
        case Some((fields, rest)) => Some((map[k := v] + fields, rest))
  }

  /* ---------- round trip ---------- */

  /** What may follow a number: nothing, or a character that is no digit. */
  predicate Delimits(rest: string) {
    rest == "" || !IsDigit(rest[0])
  }

  lemma EscapeIsUndone(c: char, rest: string)
    ensures ParseCharacter(Escape(c) + rest) == Some((c, rest))
    ensures Escape(c)[0] != '"'
  {
    var s := Escape(c) + rest;
    if |Escape(c)| == 1 {
      assert s[1..] == rest;
    } else if |Escape(c)| == 2 {
      assert s[2..] == rest;
    } else {
      assert s[2..6] == ['0', '0', HexDigit(c as nat / 16), HexDigit(c as nat % 16)];
      assert s[6..] == rest;
    }
  }

  lemma {:induction false} StringIsUndone(cs: string, rest: string)
    ensures ParseString(EscapeAll(cs) + "\"" + rest) == Some((cs, rest))
  {
    if cs == "" {
      assert (EscapeAll(cs) + "\"" + rest)[1..] == rest;
    } else {
      var tail := EscapeAll(cs[1..]) + "\"" + rest;
      var whole := Escape(cs[0]) + tail;
      assert ParseString(whole) == Some((cs, rest)) by {
        EscapeIsUndone(cs[0], tail);
        StringIsUndone(cs[1..], rest);
        assert [cs[0]] + cs[1..] == cs;
      }
      assert EscapeAll(cs) + "\"" + rest == whole;
    }
  }

  lemma QuoteIsUndone(cs: string, rest: string)
    ensures (Quote(cs) + rest)[0] == '"'
    ensures ParseString((Quote(cs) + rest)[1..]) == Some((cs, rest))
  {
    StringIsUndone(cs, rest);
    assert (Quote(cs) + rest)[1..] == EscapeAll(cs) + "\"" + rest;
  }

  lemma {:induction false} DigitsHaveTheirValue(n: nat)
    ensures DecimalValue(Digits(n)) == n
  {
    if n < 10 {
      assert Digits(n)[..0] == "";
    } else {
      DigitsHaveTheirValue(n / 10);
      assert Digits(n)[..|Digits(n)| - 1] == Digits(n / 10);
    }
  }

  lemma {:induction false} DigitPrefixOf(ds: string, rest: string)
    requires (forall i :: 0 <= i < |ds| ==> IsDigit(ds[i])) && Delimits(rest)
    ensures DigitPrefix(ds + rest) == |ds|
  {
    if ds == "" {
      assert ds + rest == rest;
    } else {
      DigitPrefixOf(ds[1..], rest);
      assert (ds + rest)[1..] == ds[1..] + rest;
    }
  }

  lemma NaturalIsUndone(n: nat, rest: string)
    requires Delimits(rest)
    ensures ParseNatural(Digits(n) + rest) == Some((n, rest))
  {
    var s := Digits(n) + rest;
    DigitPrefixOf(Digits(n), rest);
    DigitsHaveTheirValue(n);
    assert s[..|Digits(n)|] == Digits(n) && s[|Digits(n)|..] == rest;
  }

  lemma WordIsUndone(j: Json, rest: string)
    requires j.Null? || j.Bool?
    ensures ParseValue(Print(j) + rest) == Some((j, rest))
  {
    var s := Print(j) + rest;
    if j.Null? {
      assert s[4..] == rest;
    } else {
      assert s[if j.b then 4 else 5..] == rest && s[0] == if j.b then 't' else 'f';
    }
  }

  lemma NonNegativeIsUndone(n: nat, rest: string)
    requires Delimits(rest)
    ensures ParseValue(Digits(n) + rest) == Some((Int(n), rest))
  {
    hide ParseItems, ParseFields, ParseString, ParseNatural, Digits;
    NaturalIsUndone(n, rest);
    assert IsDigit((Digits(n) + rest)[0]);
  }

  lemma NegativeIsUndone(n: nat, rest: string)
    requires Delimits(rest)
    ensures ParseValue("-" + Digits(n) + rest) == Some((Int(0 - n as int), rest))
  {
    hide ParseItems, ParseFields, ParseString, ParseNatural, Digits;
    NaturalIsUndone(n, rest);
    var t := "-" + Digits(n) + rest;
    assert t[0] == '-' && t[1..] == Digits(n) + rest;
    assert !("null" <= t) && !("true" <= t) && !("false" <= t);
  }

  lemma StrIsUndone(cs: string, rest: string)
    ensures ParseValue(Quote(cs) + rest) == Some((Str(cs), rest))
  {
    QuoteIsUndone(cs, rest);
  }

  /** No value starts with a closing bracket. */
  lemma ValueStart(j: Json)
    requires InF002Subset(j)
    ensures Print(j) != "" && Print(j)[0] != ']'
  {
    if j.Int? && j.n >= 0 { assert IsDigit(Digits(j.n)[0]); }
  }

  lemma Regroup(a: string, b: string, c: string, d: string)
    ensures a + b + c + d == a + (b + c + d) == a + (b + (c + d))
  {
  }

  /* One step of each bracketed parser, on any input. */

  lemma {:induction false} ParseArray(s: string, items: seq<Json>, rest: string)
    requires s != "" && s[0] != ']' && ParseItems(s) == Some((items, rest))
    ensures ParseValue("[" + s) == Some((Arr(items), rest))
  {
    hide ParseItems, ParseFields, ParseString, ParseNatural;
    var t := "[" + s;
    assert t[0] == '[' && t[1..] == s && t[1] == s[0];
    assert !("null" <= t) && !("true" <= t) && !("false" <= t);
  }

  lemma ParseObject(s: string, fields: map<string, Json>, rest: string)
    requires s != "" && s[0] != '}' && ParseFields(s) == Some((fields, rest))
    ensures ParseValue("{" + s) == Some((Obj(fields), rest))
  {
    hide ParseItems, ParseFields, ParseString, ParseNatural;
    var t := "{" + s;
    assert t[0] == '{' && t[1..] == s && t[1] == s[0];
    assert !("null" <= t) && !("true" <= t) && !("false" <= t);
  }

  lemma ParseLastItem(s: string, item: Json, rest: string)
    requires ParseValue(s) == Some((item, "]" + rest))
    ensures ParseItems(s) == Some(([item], rest))
  {
    assert ("]" + rest)[1..] == rest;
  }

  lemma ParseNextItem(s: string, item: Json, tail: string, items: seq<Json>, rest: string)
    requires ParseValue(s) == Some((item, "," + tail)) && ParseItems(tail) == Some((items, rest))
    ensures ParseItems(s) == Some(([item] + items, rest))
  {
    assert ("," + tail)[1..] == tail;
  }

  lemma ParseOneField(s: string, k: string, tail: string, v: Json, rest: string)
    requires s != "" && s[0] == '"' && ParseString(s[1..]) == Some((k, ":" + tail))
    requires ParseValue(tail) == Some((v, rest))
    ensures ParseField(s) == Some(((k, v), rest))
  {
    assert (":" + tail)[1..] == tail;
  }

  lemma ParseLastField(s: string, k: string, v: Json, rest: string)
    requires ParseField(s) == Some(((k, v), "}" + rest))
    ensures ParseFields(s) == Some((map[k := v], rest))
  {
    assert ("}" + rest)[1..] == rest;
  }

  lemma ParseNextField(s: string, k: string, v: Json, tail: string, fields: map<string, Json>, rest: string)
    requires ParseField(s) == Some(((k, v), "," + tail)) && ParseFields(tail) == Some((fields, rest))
    ensures ParseFields(s) == Some((map[k := v] + fields, rest))
  {
    assert ("," + tail)[1..] == tail;
  }

  function FieldsAmong(j: Json, ks: seq<string>): map<string, Json>
    requires j.Obj?
  {
    map k | k in j.fields && k in ks :: j.fields[k]
  }

  lemma {:induction false} PrintIsUndone(j: Json, rest: string)
    requires InF002Subset(j) && Delimits(rest)
    ensures ParseValue(Print(j) + rest) == Some((j, rest))
    decreases j, 2
  {
    match j
    case Arr(items) => ArrayIsUndone(items, rest);
    case Obj(fields) => ObjectIsUndone(j, rest);
    case Int(n) => if n < 0 { NegativeIsUndone(-n, rest); } else { NonNegativeIsUndone(n, rest); }
    case Str(cs) => StrIsUndone(cs, rest);
    case _ => WordIsUndone(j, rest);
  }

  lemma {:induction false} ArrayIsUndone(items: seq<Json>, rest: string)
    requires forall x | x in items :: InF002Subset(x)
    ensures ParseValue("[" + PrintItems(items) + "]" + rest) == Some((Arr(items), rest))
    decreases items, 1
  {
    var inner := PrintItems(items) + "]" + rest;
    assert "[" + PrintItems(items) + "]" + rest == "[" + inner;
    if items == [] {
      var s := "[" + inner;
      assert s[0] == '[' && s[1] == ']' && s[2..] == rest;
    } else {
      ItemsAreUndone(items, rest);
      ValueStart(items[0]);
      assert inner[0] == Print(items[0])[0];
      ParseArray(inner, items, rest);
    }
  }

  lemma {:induction false} ObjectIsUndone(j: Json, rest: string)
    requires j.Obj? && InF002Subset(j)
    ensures ParseValue(Print(j) + rest) == Some((j, rest))
    decreases j, 1
  {
    hide ParseValue, ParseFields, PrintFields, PrintField, Before;
    var ks := SortedKeys(j.fields.Keys);
    var inner := PrintFields(j, ks) + "}" + rest;
    assert Print(j) + rest == "{" + inner;
    if ks == [] {
      assert j.fields == map[] by { assert forall k :: k !in j.fields.Keys; }
      EmptyObject(j, rest);
    } else {
      FieldsAreUndone(j, ks, rest);
      assert FieldsAmong(j, ks) == j.fields;
      FieldsStart(j, ks);
      assert inner[0] == PrintFields(j, ks)[0];
      ParseObject(inner, j.fields, rest);
    }
  }

  lemma EmptyObject(j: Json, rest: string)
    requires j == Obj(map[])
    ensures ParseValue("{" + PrintFields(j, []) + "}" + rest) == Some((j, rest))
  {
    var s := "{" + PrintFields(j, []) + "}" + rest;
    assert s[0] == '{' && s[1] == '}' && s[2..] == rest;
  }

  lemma FieldsStart(j: Json, ks: seq<string>)
    requires j.Obj? && InF002Subset(j) && ks != [] && forall k | k in ks :: k in j.fields
    ensures PrintFields(j, ks) != "" && PrintFields(j, ks)[0] == '"'
  {
    hide Print;
    assert PrintField(j, ks[0])[0] == Quote(ks[0])[0];
  }

  lemma TextOfItems(items: seq<Json>, rest: string)
    requires |items| > 1 && forall x | x in items :: InF002Subset(x)
    ensures PrintItems(items) + "]" + rest == Print(items[0]) + ("," + (PrintItems(items[1..]) + "]" + rest))
  {
    Regroup(Print(items[0]), ",", PrintItems(items[1..]) + "]", rest);
  }

  lemma {:induction false} ItemsAreUndone(items: seq<Json>, rest: string)
    requires items != [] && forall x | x in items :: InF002Subset(x)
    ensures ParseItems(PrintItems(items) + "]" + rest) == Some((items, rest))
    decreases items, 0
  {
    var first := items[0];
    if |items| == 1 {
      PrintIsUndone(first, "]" + rest);
      ParseLastItem(Print(first) + ("]" + rest), first, rest);
      assert PrintItems(items) + "]" + rest == Print(first) + ("]" + rest);
      assert [first] == items;
    } else {
      var tail := PrintItems(items[1..]) + "]" + rest;
      var whole := Print(first) + ("," + tail);
      assert ParseItems(whole) == Some((items, rest)) by {
        PrintIsUndone(first, "," + tail);
        ItemsAreUndone(items[1..], rest);
        ParseNextItem(whole, first, tail, items[1..], rest);
        assert [first] + items[1..] == items;
      }
      TextOfItems(items, rest);
    }
  }

  lemma {:induction false} FieldIsUndone(j: Json, k: string, rest: string)
    requires j.Obj? && InF002Subset(j) && k in j.fields && Delimits(rest)
    ensures ParseField(PrintField(j, k) + rest) == Some(((k, j.fields[k]), rest))
    decreases j, 0, 0
  {
    var tail := Print(j.fields[k]) + rest;
    PrintIsUndone(j.fields[k], rest);
    QuoteIsUndone(k, ":" + tail);
    ParseOneField(Quote(k) + (":" + tail), k, tail, j.fields[k], rest);
    Regroup(Quote(k), ":", Print(j.fields[k]), rest);
  }

  lemma TextOfFields(j: Json, ks: seq<string>, rest: string)
    requires j.Obj? && InF002Subset(j) && |ks| > 1 && forall k | k in ks :: k in j.fields
    ensures PrintFields(j, ks) + "}" + rest == PrintField(j, ks[0]) + ("," + (PrintFields(j, ks[1..]) + "}" + rest))
  {
    Regroup(PrintField(j, ks[0]), ",", PrintFields(j, ks[1..]) + "}", rest);
  }

  lemma {:induction false} FieldsAreUndone(j: Json, ks: seq<string>, rest: string)
    requires j.Obj? && InF002Subset(j) && ks != [] && Ascending(ks) && forall k | k in ks :: k in j.fields
    ensures ParseFields(PrintFields(j, ks) + "}" + rest) == Some((FieldsAmong(j, ks), rest))
    decreases j, 0, |ks|
  {
    hide ParseFields, ParseField, Print, PrintField, Before;
    var k := ks[0];
    if |ks| == 1 {
      FieldIsUndone(j, k, "}" + rest);
      ParseLastField(PrintField(j, k) + ("}" + rest), k, j.fields[k], rest);
      assert PrintFields(j, ks) + "}" + rest == PrintField(j, k) + ("}" + rest);
      assert map[k := j.fields[k]] == FieldsAmong(j, ks);
    } else {
      var tail := PrintFields(j, ks[1..]) + "}" + rest;
      var whole := PrintField(j, k) + ("," + tail);
      assert ParseFields(whole) == Some((FieldsAmong(j, ks), rest)) by {
        FieldIsUndone(j, k, "," + tail);
        FieldsAreUndone(j, ks[1..], rest);
        ParseNextField(whole, k, j.fields[k], tail, FieldsAmong(j, ks[1..]), rest);
        FirstFieldFirst(j, ks);
      }
      TextOfFields(j, ks, rest);
    }
  }

  lemma FirstFieldFirst(j: Json, ks: seq<string>)
    requires j.Obj? && ks != [] && ks[0] in j.fields && Ascending(ks)
    ensures map[ks[0] := j.fields[ks[0]]] + FieldsAmong(j, ks[1..]) == FieldsAmong(j, ks)
  {
    assert ks == [ks[0]] + ks[1..];
  }

  /** The canonical text is undone by the parser, so it identifies the value. */
  lemma CanonicalTextIsParsed(j: Json)
    requires InF002Subset(j)
    ensures CanonicalText(j) == Ok(Print(j)) && ParseValue(Print(j)) == Some((j, ""))
  {
    PrintIsUndone(j, "");
    assert Print(j) + "" == Print(j);
  }

  lemma CanonicalTextIsInjective(a: Json, b: Json)
    requires CanonicalText(a).Ok? && CanonicalText(a) == CanonicalText(b)
    ensures a == b
  {
    CanonicalTextIsParsed(a);
    CanonicalTextIsParsed(b);
  }
}
