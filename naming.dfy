/**
 * Deterministic key order and parameter naming shared by the white-noise
 * signals: selection keys are visited in Python's string order, and each
 * group's parameter prefix joins the non-empty parts of
 * [pulsar name, signal name, key] with '_'.
 */
module Naming {

  /** Python's `<` on str: lexicographic on code points, a proper prefix first. */
  predicate StrLt(a: string, b: string)
    decreases |a|
  {
    if |a| == 0 then |b| > 0
    else if |b| == 0 then false
    else a[0] < b[0] || (a[0] == b[0] && StrLt(a[1..], b[1..]))
  }

  lemma {:induction false} StrLtIrreflexive(a: string)
    ensures !StrLt(a, a)
    decreases |a|
  {
    if |a| > 0 {
      StrLtIrreflexive(a[1..]);
    }
  }

  lemma {:induction false} StrLtTransitive(a: string, b: string, c: string)
    requires StrLt(a, b) && StrLt(b, c)
    ensures StrLt(a, c)
    decreases |a|
  {
    if |a| > 0 && a[0] == b[0] && b[0] == c[0] {
      StrLtTransitive(a[1..], b[1..], c[1..]);
    }
  }

  lemma {:induction false} StrLtTotal(a: string, b: string)
    ensures a == b || StrLt(a, b) || StrLt(b, a)
    decreases |a|
  {
    if |a| > 0 && |b| > 0 && a[0] == b[0] {
      StrLtTotal(a[1..], b[1..]);
      if a[1..] == b[1..] {
        assert a == [a[0]] + a[1..] && b == [b[0]] + b[1..];
      }
    }
  }

  lemma {:induction false} StrLtAsymmetric(a: string, b: string)
    ensures !(StrLt(a, b) && StrLt(b, a))
  {
    if StrLt(a, b) && StrLt(b, a) {
      StrLtTransitive(a, b, a);
      StrLtIrreflexive(a);
    }
  }

  /** m is the least element of s in string order. */
  predicate IsLeast(m: string, s: set<string>) {
    m in s && forall x :: x in s && x != m ==> StrLt(m, x)
  }

  lemma {:induction false} LeastExists(s: set<string>)
    requires s != {}
    ensures exists m :: IsLeast(m, s)
    decreases |s|
  {
    var x :| x in s;
    var rest := s - {x};
    if rest == {} {
      assert s == {x};
      assert IsLeast(x, s);
    } else {
      LeastExists(rest);
      var m :| IsLeast(m, rest);
      StrLtTotal(m, x);
      if StrLt(m, x) {
        assert IsLeast(m, s);
      } else {
        forall y | y in s && y != x
          ensures StrLt(x, y)
        {
          if y != m {
            StrLtTransitive(x, m, y);
          }
        }
        assert IsLeast(x, s);
      }
    }
  }

  lemma LeastUnique(s: set<string>)
    ensures forall m1, m2 :: IsLeast(m1, s) && IsLeast(m2, s) ==> m1 == m2
  {
    forall m1, m2 | IsLeast(m1, s) && IsLeast(m2, s)
      ensures m1 == m2
    {
      if m1 != m2 {
        StrLtAsymmetric(m1, m2);
      }
    }
  }

  /** Keys in strictly increasing order. */
  predicate StrictlySorted(ks: seq<string>) {
    forall i, j :: 0 <= i < j < |ks| ==> StrLt(ks[i], ks[j])
  }

  /** No key occurs twice. */
  predicate Distinct(ks: seq<string>) {
    forall i, j :: 0 <= i < j < |ks| ==> ks[i] != ks[j]
  }

  /** A strictly sorted sequence holds no key twice. */
  lemma SortedDistinct(ks: seq<string>)
    requires StrictlySorted(ks)
    ensures Distinct(ks)
  {
    forall i, j | 0 <= i < j < |ks| ensures ks[i] != ks[j] {
      StrLtIrreflexive(ks[i]);
    }
  }

  /**
   * `list(sorted(keys))`: the keys of a selection in increasing string order,
   * each exactly once.
   */
  function SortedKeys(s: set<string>): (r: seq<string>)
    ensures |r| == |s|
    ensures forall k :: k in r <==> k in s
    ensures StrictlySorted(r)
    decreases |s|
  {
    if s == {} then []
    else
      LeastExists(s);
      LeastUnique(s);
      var m :| IsLeast(m, s);
      var rest := SortedKeys(s - {m});
      SortedCons(m, rest, s);
      [m] + rest
  }

  /** The least key followed by the sorted others is the sorted whole. */
  lemma SortedCons(m: string, rest: seq<string>, s: set<string>)
    requires IsLeast(m, s) && StrictlySorted(rest)
    requires forall k :: k in rest <==> k in s - {m}
    ensures StrictlySorted([m] + rest)
    ensures forall k :: k in [m] + rest <==> k in s
  {
    var r := [m] + rest;
    forall i, j | 0 <= i < j < |r| ensures StrLt(r[i], r[j]) {
      if i == 0 {
        assert r[j] == rest[j - 1] && r[j] in s - {m};
      } else {
        assert r[i] == rest[i - 1] && r[j] == rest[j - 1];
      }
    }
  }

  /** Only the non-empty parts, in order: `[n for n in parts if n]`. */
  function NonEmptyParts(parts: seq<string>): (r: seq<string>)
    ensures forall i :: 0 <= i < |r| ==> r[i] != []
    ensures |r| <= |parts|
  {
    if parts == [] then []
    else if parts[0] == [] then NonEmptyParts(parts[1..])
    else [parts[0]] + NonEmptyParts(parts[1..])
  }

  /** `sep.join(parts)`. */
  function Join(parts: seq<string>, sep: char): string {
    if parts == [] then []
    else if |parts| == 1 then parts[0]
    else parts[0] + [sep] + Join(parts[1..], sep)
  }

  /** The parameter prefix of one selection group. */
  function ParamPrefix(psrName: string, signalName: string, key: string): string {
    Join(NonEmptyParts([psrName, signalName, key]), '_')
  }

  lemma {:induction false} NonEmptyPartsAppend(parts: seq<string>, last: string)
    ensures NonEmptyParts(parts + [last])
            == NonEmptyParts(parts) + (if last == [] then [] else [last])
  {
    if parts == [] {
      assert parts + [last] == [last];
      assert [last][1..] == [];
    } else {
      assert (parts + [last])[1..] == parts[1..] + [last];
      NonEmptyPartsAppend(parts[1..], last);
    }
  }

  lemma {:induction false} JoinAppend(parts: seq<string>, last: string, sep: char)
    ensures Join(parts + [last], sep)
            == if parts == [] then last else Join(parts, sep) + [sep] + last
  {
    if parts == [] {
      assert parts + [last] == [last];
    } else if |parts| == 1 {
      assert (parts + [last])[1..] == [last];
    } else {
      assert (parts + [last])[1..] == parts[1..] + [last];
      JoinAppend(parts[1..], last, sep);
    }
  }

  /**
   * The prefix is the non-empty parts joined by '_': the key alone, the
   * pulsar/signal part alone, or the two with one '_' between them.
   */
  lemma ParamPrefixShape(psrName: string, signalName: string, key: string)
    ensures var head := Join(NonEmptyParts([psrName, signalName]), '_');
      && head == (if psrName == [] then signalName
                  else if signalName == [] then psrName
                  else psrName + "_" + signalName)
      && ParamPrefix(psrName, signalName, key)
         == (if key == [] then head
             else if head == [] then key
             else head + "_" + key)
  {
    var first := NonEmptyParts([psrName]);
    assert [psrName][1..] == [];
    assert first == if psrName == [] then [] else [psrName];
    NonEmptyPartsAppend([psrName], signalName);
    assert [psrName] + [signalName] == [psrName, signalName];
    var two := NonEmptyParts([psrName, signalName]);
    JoinAppend(first, signalName, '_');
    NonEmptyPartsAppend([psrName, signalName], key);
    assert [psrName, signalName] + [key] == [psrName, signalName, key];
    JoinAppend(two, key, '_');
    assert two == [] <==> Join(two, '_') == [] by {
      if two != [] {
        assert two[0] != [];
        if |two| == 2 {
          assert two == [psrName, signalName];
        }
      }
    }
  }

  lemma ParamPrefixAllPresent(psrName: string, signalName: string, key: string)
    requires psrName != [] && signalName != [] && key != []
    ensures ParamPrefix(psrName, signalName, key) == psrName + "_" + signalName + "_" + key
  {
    ParamPrefixShape(psrName, signalName, key);
  }

  lemma ParamPrefixAllEmpty()
    ensures ParamPrefix("", "", "") == ""
  {
    ParamPrefixShape("", "", "");
  }

  /**
   * Within one pulsar and one signal, distinct selection keys never share a
   * parameter prefix, so the groups' parameters cannot collide.
   */
  lemma ParamPrefixInjective(psrName: string, signalName: string, k1: string, k2: string)
    requires ParamPrefix(psrName, signalName, k1) == ParamPrefix(psrName, signalName, k2)
    ensures k1 == k2
  {
    ParamPrefixShape(psrName, signalName, k1);
    ParamPrefixShape(psrName, signalName, k2);
    var head := Join(NonEmptyParts([psrName, signalName]), '_');
    var p1 := ParamPrefix(psrName, signalName, k1);
    var p2 := ParamPrefix(psrName, signalName, k2);
    if head != [] {
      assert (k1 == []) == (|p1| == |head|);
      assert (k2 == []) == (|p2| == |head|);
      if k1 != [] {
        assert k1 == p1[|head| + 1..] && k2 == p2[|head| + 1..];
      }
    }
  }
}
