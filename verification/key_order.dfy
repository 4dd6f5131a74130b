/**
 * The order in which `Object.keys` lists the latitude keys of the grouping dictionary:
 * keys that are array indices (integers from 0 to 2^32 - 2) come first in ascending
 * numeric order, every other key follows in the order it was first inserted.
 */
module KeyOrder {

  /** A latitude whose canonical string form is an array index. */
  predicate IsArrayIndex(k: real) {
    k.Floor as real == k && 0.0 <= k <= 4294967294.0
  }

  predicate Distinct(s: seq<real>) {
    forall i, j :: 0 <= i < j < |s| ==> s[i] != s[j]
  }

  predicate Ascending(s: seq<real>) {
    forall i, j :: 0 <= i < j < |s| ==> s[i] < s[j]
  }

  /** Insert `x` into an ascending sequence in front of the first element not below it. */
  function Insert(x: real, s: seq<real>): seq<real> {
    if s == [] then [x]
    else if x <= s[0] then [x] + s
    else [s[0]] + Insert(x, s[1..])
  }

  function SortKeys(s: seq<real>): seq<real> {
    if s == [] then [] else Insert(s[0], SortKeys(s[1..]))
  }

  /** The array-index keys of `s`, in the order of `s`. */
  function IndexKeys(s: seq<real>): seq<real> {
    if s == [] then []
    else (if IsArrayIndex(s[0]) then [s[0]] else []) + IndexKeys(s[1..])
  }

  /** The keys of `s` that are not array indices, in the order of `s`. */
  function OtherKeys(s: seq<real>): seq<real> {
    if s == [] then []
    else (if IsArrayIndex(s[0]) then [] else [s[0]]) + OtherKeys(s[1..])
  }

  /** `Object.keys` of a dictionary whose keys were inserted in the order `insertion`. */
  function ObjectKeys(insertion: seq<real>): seq<real> {
    SortKeys(IndexKeys(insertion)) + OtherKeys(insertion)
  }

  lemma {:induction false} InsertFacts(x: real, s: seq<real>)
    ensures |Insert(x, s)| == |s| + 1
    ensures forall y :: y in Insert(x, s) <==> y == x || y in s
    ensures Ascending(s) && x !in s ==> Ascending(Insert(x, s))
  {
    InsertMembers(x, s);
    if Ascending(s) && x !in s {
      InsertAscending(x, s);
    }
  }

  lemma {:induction false} InsertMembers(x: real, s: seq<real>)
    ensures |Insert(x, s)| == |s| + 1
    ensures forall y :: y in Insert(x, s) <==> y == x || y in s
  {
    if s != [] && x > s[0] {
      InsertMembers(x, s[1..]);
      assert s == [s[0]] + s[1..];
    }
  }

  lemma {:induction false} InsertAscending(x: real, s: seq<real>)
    requires Ascending(s) && x !in s
    ensures Ascending(Insert(x, s))
  {
    if s == [] {
    } else if x <= s[0] {
      AscendingCons(x, s);
    } else {
      assert s == [s[0]] + s[1..];
      InsertAscending(x, s[1..]);
      InsertMembers(x, s[1..]);
      var t := Insert(x, s[1..]);
      forall y | y in t ensures s[0] < y {
        if y != x {
          var j :| 0 <= j < |s[1..]| && s[1..][j] == y;
          assert s[j + 1] == y;
        }
      }
      AscendingCons(s[0], t);
    }
  }

  /** A key below every key of an ascending sequence can be put in front of it. */
  lemma AscendingCons(x: real, t: seq<real>)
    requires Ascending(t) && forall y :: y in t ==> x < y
    ensures Ascending([x] + t)
  {
    forall i, j | 0 <= i < j < |[x] + t| ensures ([x] + t)[i] < ([x] + t)[j] {
      assert ([x] + t)[j] == t[j - 1];
      if i == 0 {
        assert t[j - 1] in t;
      } else {
        assert ([x] + t)[i] == t[i - 1];
      }
    }
  }

  lemma {:induction false} SortKeysFacts(s: seq<real>)
    ensures |SortKeys(s)| == |s|
    ensures forall y :: y in SortKeys(s) <==> y in s
    ensures Distinct(s) ==> Ascending(SortKeys(s))
  {
    if s != [] {
      SortKeysFacts(s[1..]);
      InsertFacts(s[0], SortKeys(s[1..]));
      assert s == [s[0]] + s[1..];
      if Distinct(s) {
        DistinctTail(s);
      }
    }
  }

  /** Dropping the first key of a repetition-free sequence leaves one that does not contain it. */
  lemma DistinctTail(s: seq<real>)
    requires Distinct(s) && s != []
    ensures Distinct(s[1..]) && s[0] !in s[1..]
  {
  }

  lemma {:induction false} FilterMembers(s: seq<real>)
    ensures forall y :: y in IndexKeys(s) <==> y in s && IsArrayIndex(y)
    ensures forall y :: y in OtherKeys(s) <==> y in s && !IsArrayIndex(y)
    ensures |IndexKeys(s)| + |OtherKeys(s)| == |s|
  {
    if s != [] {
      FilterMembers(s[1..]);
      assert s == [s[0]] + s[1..];
    }
  }

  lemma {:induction false} FilterDistinct(s: seq<real>)
    requires Distinct(s)
    ensures Distinct(IndexKeys(s)) && Distinct(OtherKeys(s))
  {
    if s != [] {
      DistinctTail(s);
      FilterDistinct(s[1..]);
      FilterMembers(s[1..]);
      DistinctCons(s[0], IndexKeys(s[1..]), IsArrayIndex(s[0]));
      DistinctCons(s[0], OtherKeys(s[1..]), !IsArrayIndex(s[0]));
    }
  }

  lemma {:induction false} OtherKeysNoIndex(s: seq<real>)
    ensures forall i :: 0 <= i < |OtherKeys(s)| ==> !IsArrayIndex(OtherKeys(s)[i])
  {
    FilterMembers(s);
    forall i | 0 <= i < |OtherKeys(s)| ensures !IsArrayIndex(OtherKeys(s)[i]) {
      assert OtherKeys(s)[i] in OtherKeys(s);
    }
  }

  lemma {:induction false} FilterNoIndex(s: seq<real>)
    requires forall i :: 0 <= i < |s| ==> !IsArrayIndex(s[i])
    ensures IndexKeys(s) == [] && OtherKeys(s) == s
  {
    if s != [] {
      assert forall i :: 0 <= i < |s[1..]| ==> !IsArrayIndex(s[1..][i]) by {
        forall i | 0 <= i < |s[1..]| ensures !IsArrayIndex(s[1..][i]) {
          assert s[1..][i] == s[i + 1];
        }
      }
      FilterNoIndex(s[1..]);
      assert !IsArrayIndex(s[0]);
      assert s == [s[0]] + s[1..];
    }
  }

  /** Prepending (or not) a fresh key keeps a sequence free of repetitions. */
  lemma DistinctCons(x: real, t: seq<real>, take: bool)
    requires Distinct(t) && x !in t
    ensures Distinct((if take then [x] else []) + t)
  {
  }

  /** `Object.keys` lists every inserted key exactly once. */
  lemma ObjectKeysPermutes(insertion: seq<real>)
    requires Distinct(insertion)
    ensures |ObjectKeys(insertion)| == |insertion|
    ensures forall y :: y in ObjectKeys(insertion) <==> y in insertion
    ensures Distinct(ObjectKeys(insertion))
  {
    FilterMembers(insertion);
    FilterDistinct(insertion);
    SortKeysFacts(IndexKeys(insertion));
    var a, b := SortKeys(IndexKeys(insertion)), OtherKeys(insertion);
    assert forall y :: y in a ==> y !in b by {
      forall y | y in a ensures y !in b {
        assert IsArrayIndex(y);
      }
    }
    DistinctConcat(a, b);
  }

  /** Two repetition-free sequences with no key in common concatenate to one. */
  lemma DistinctConcat(a: seq<real>, b: seq<real>)
    requires Distinct(a) && Distinct(b) && forall y :: y in a ==> y !in b
    ensures Distinct(a + b)
  {
    forall i, j | 0 <= i < j < |a + b| ensures (a + b)[i] != (a + b)[j] {
      if j < |a| {
        assert (a + b)[i] == a[i] && (a + b)[j] == a[j];
      } else if i >= |a| {
        assert (a + b)[i] == b[i - |a|] && (a + b)[j] == b[j - |a|];
      } else {
        assert (a + b)[i] == a[i] && a[i] in a;
        assert (a + b)[j] == b[j - |a|] && b[j - |a|] in b;
      }
    }
  }

  /** Array-index keys come first, ascending; the others follow in insertion order. */
  lemma ObjectKeysOrder(insertion: seq<real>)
    requires Distinct(insertion)
    ensures var n := |IndexKeys(insertion)|;
      n <= |ObjectKeys(insertion)| &&
      Ascending(ObjectKeys(insertion)[..n]) &&
      (forall i :: 0 <= i < n ==> IsArrayIndex(ObjectKeys(insertion)[i])) &&
      ObjectKeys(insertion)[n..] == OtherKeys(insertion) &&
      (forall i :: n <= i < |ObjectKeys(insertion)| ==> !IsArrayIndex(ObjectKeys(insertion)[i]))
  {
    FilterMembers(insertion);
    FilterDistinct(insertion);
    OtherKeysNoIndex(insertion);
    SortKeysFacts(IndexKeys(insertion));
    var a, b := SortKeys(IndexKeys(insertion)), OtherKeys(insertion);
    assert (a + b)[..|a|] == a;
    assert (a + b)[|a|..] == b;
    forall i | 0 <= i < |a| ensures IsArrayIndex((a + b)[i]) {
      assert (a + b)[i] == a[i] && a[i] in a;
    }
    forall i | |a| <= i < |a + b| ensures !IsArrayIndex((a + b)[i]) {
      assert (a + b)[i] == b[i - |a|];
    }
  }

  /** When no latitude is an array index, `Object.keys` is first-insertion order. */
  lemma ObjectKeysInsertionOrder(insertion: seq<real>)
    requires forall i :: 0 <= i < |insertion| ==> !IsArrayIndex(insertion[i])
    ensures ObjectKeys(insertion) == insertion
  {
    FilterNoIndex(insertion);
    assert SortKeys([]) == [];
  }
}
