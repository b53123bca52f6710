/** Ids derived from names: `uuid5` over parts joined by colons. */
module StableIds {
  import opened Prelude
  import opened PythonText
  import opened CourseTree

  /** `uuid5` in its fixed namespace, and `str` of an id. */
  datatype Uuids = Uuids(uuid5: string -> Id, show: Id -> string)

  predicate HasNoColon(s: string) {
    ':' !in s
  }

  /** Different names have different ids; ids are written differently, without colons. */
  ghost predicate AreIdeal(u: Uuids) {
    && (forall a: string, b: string :: a != b ==> u.uuid5(a) != u.uuid5(b))
    && (forall a: Id, b: Id :: a != b ==> u.show(a) != u.show(b))
    && (forall a: Id :: HasNoColon(u.show(a)))
  }

  function Name(parts: seq<string>): string {
    "ai-lms:" + Join(":", parts)
  }

  /** `_stable_id(*parts)` with the parts already written out. */
  function StableId(u: Uuids, parts: seq<string>): Id {
    u.uuid5(Name(parts))
  }

  function FirstColon(s: string): nat {
    if s == "" || s[0] == ':' then 0 else 1 + FirstColon(s[1..])
  }

  lemma {:induction false} FirstColonAfter(a: string, x: string)
    requires HasNoColon(a)
    ensures FirstColon(a + ":" + x) == |a|
  {
    var s := a + ":" + x;
    if a != "" {
      assert a[0] in a && forall c | c in a[1..] :: c in a;
      assert s[1..] == a[1..] + ":" + x;
      FirstColonAfter(a[1..], x);
    }
  }

  /** The first colon tells where the first part ends. */
  lemma HeadsAgree(a: string, x: string, b: string, y: string)
    requires HasNoColon(a) && HasNoColon(b) && a + ":" + x == b + ":" + y
    ensures a == b && x == y
  {
    var s, t := a + ":" + x, b + ":" + y;
    FirstColonAfter(a, x);
    FirstColonAfter(b, y);
    assert s[..|a|] == a && t[..|b|] == b && s[|a| + 1..] == x && t[|b| + 1..] == y;
  }

  /** Joined names of the same number of parts agree only if the parts do, when at most the last part has a colon. */
  lemma {:induction false} JoinIsInjective(a: seq<string>, b: seq<string>)
    requires |a| == |b| >= 1 && Join(":", a) == Join(":", b)
    requires forall i :: 0 <= i < |a| - 1 ==> HasNoColon(a[i]) && HasNoColon(b[i])
    ensures a == b
  {
    if |a| > 1 {
      HeadsAgree(a[0], Join(":", a[1..]), b[0], Join(":", b[1..]));
      JoinIsInjective(a[1..], b[1..]);
      assert a == [a[0]] + a[1..] && b == [b[0]] + b[1..];
    }
  }

  /** Ids of one kind differ when any part of their names differs. */
  lemma SameIdSameParts(u: Uuids, a: seq<string>, b: seq<string>)
    requires AreIdeal(u) && |a| == |b| >= 1 && StableId(u, a) == StableId(u, b)
    requires forall i :: 0 <= i < |a| - 1 ==> HasNoColon(a[i]) && HasNoColon(b[i])
    ensures a == b
  {
    assert Name(a) == Name(b);
    assert Name(a)[7..] == Join(":", a) && Name(b)[7..] == Join(":", b);
    JoinIsInjective(a, b);
  }

  /** `str` of a positive integer. */
  function Decimal(n: nat): (s: string)
    ensures s != "" && HasNoColon(s)
  {
    if n < 10 then ['0' + n as char] else Decimal(n / 10) + ['0' + (n % 10) as char]
  }

  lemma {:induction false} DecimalIsInjective(a: nat, b: nat)
    requires Decimal(a) == Decimal(b)
    ensures a == b
  {
    var s, t := Decimal(a), Decimal(b);
    if a >= 10 {
      assert s[|s| - 1] == '0' + (a % 10) as char && s[..|s| - 1] == Decimal(a / 10);
    }
    if b >= 10 {
      assert t[|t| - 1] == '0' + (b % 10) as char && t[..|t| - 1] == Decimal(b / 10);
    }
    if a >= 10 && b >= 10 {
      DecimalIsInjective(a / 10, b / 10);
    }
  }
}
