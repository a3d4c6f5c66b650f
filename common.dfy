/** Shared vocabulary of the admin console model: ids, optional values, error
    results, HTTP status codes and the ASCII string helpers used by both the
    Go back end and the TypeScript front end. */
module Common {

  /** A UUID, kept abstract; 0 stands for uuid.Nil. */
  type Uuid = nat

  const NilId: Uuid := 0

  datatype Option<T> = None | Some(value: T)

  /** The merge rule for an optional field of an update DTO: an absent (nil) field keeps
      the current value. */
  function ValueOr<T>(o: Option<T>, current: T): T
  {
    if o.Some? then o.value else current
  }

  /** A Go `(value, error)` pair: either a value or an error message. */
  datatype Result<T> = Ok(value: T) | Err(msg: string)

  /** The message gorm reports for `First` on an empty result. */
  const RecordNotFound: string := "record not found"

  // HTTP status codes written by the handlers and middleware.
  const StatusOK := 200
  const StatusCreated := 201
  const StatusBadRequest := 400
  const StatusUnauthorized := 401
  const StatusForbidden := 403
  const StatusNotFound := 404
  const StatusTooManyRequests := 429
  const StatusInternalServerError := 500

  /** ASCII lower-casing of one character (other characters unchanged). */
  function LowerChar(c: char): char
  {
    if 'A' <= c <= 'Z' then (c as int + 32) as char else c
  }

  /** ASCII upper-casing of one character (other characters unchanged). */
  function UpperChar(c: char): char
  {
    if 'a' <= c <= 'z' then (c as int - 32) as char else c
  }

  function Lower(s: string): (r: string)
    ensures |r| == |s|
    ensures forall i :: 0 <= i < |s| ==> r[i] == LowerChar(s[i])
  {
    seq(|s|, i requires 0 <= i < |s| => LowerChar(s[i]))
  }

  function Upper(s: string): (r: string)
    ensures |r| == |s|
    ensures forall i :: 0 <= i < |s| ==> r[i] == UpperChar(s[i])
  {
    seq(|s|, i requires 0 <= i < |s| => UpperChar(s[i]))
  }

  /** JavaScript `s.includes(sub)` / Go `strings.Contains`. */
  predicate Contains(s: string, sub: string)
  {
    exists i :: 0 <= i <= |s| - |sub| && OccursAt(s, sub, i)
  }

  predicate OccursAt(s: string, sub: string, i: int)
    requires 0 <= i <= |s| - |sub|
  {
    s[i..i + |sub|] == sub
  }

  lemma EmptyIsContained(s: string)
    ensures Contains(s, "")
  {
    assert OccursAt(s, "", 0);
  }

  /** Every value of `s` occurs once: the shape of a SQL DISTINCT answer. */
  predicate NoDuplicates<T(==)>(s: seq<T>)
  {
    forall i, j :: 0 <= i < j < |s| ==> s[i] != s[j]
  }

  /** Keeps the first occurrence of every value, in order of first appearance
      (JavaScript `Array.from(new Set(xs))`). */
  function Distinct<T(==, !new)>(s: seq<T>): (r: seq<T>)
    ensures NoDuplicates(r)
    ensures forall x :: x in r <==> x in s
    decreases |s|
  {
    if |s| == 0 then []
    else
      var prefix := Distinct(s[..|s| - 1]);
      assert forall x :: x in s <==> x in s[..|s| - 1] || x == s[|s| - 1];
      if s[|s| - 1] in prefix then prefix else prefix + [s[|s| - 1]]
  }

  /** The elements of `s` that satisfy `keep`, in their order (a SQL WHERE or
      a JavaScript `filter`). */
  function Filter<T(!new)>(s: seq<T>, keep: T -> bool): (r: seq<T>)
    ensures |r| <= |s|
    ensures forall x :: x in r <==> x in s && keep(x)
  {
    if |s| == 0 then [] else (if keep(s[0]) then [s[0]] else []) + Filter(s[1..], keep)
  }

  /** Filtering distributes over concatenation, so it keeps relative order. */
  lemma {:induction false} FilterAppend<T(!new)>(a: seq<T>, b: seq<T>, keep: T -> bool)
    ensures Filter(a + b, keep) == Filter(a, keep) + Filter(b, keep)
  {
    if |a| > 0 {
      assert (a + b)[1..] == a[1..] + b;
      FilterAppend(a[1..], b, keep);
    } else {
      assert a + b == b;
    }
  }

  /** A filter that keeps every element is the identity. */
  lemma {:induction false} FilterKeepsAll<T(!new)>(s: seq<T>, keep: T -> bool)
    requires forall x :: x in s ==> keep(x)
    ensures Filter(s, keep) == s
  {
    if |s| > 0 {
      assert forall x :: x in s[1..] ==> x in s;
      FilterKeepsAll(s[1..], keep);
    }
  }

  /** `sub` is obtained from `s` by deleting elements, so what is kept keeps
      the order it had in `s`. */
  predicate Subsequence<T(==)>(sub: seq<T>, s: seq<T>)
    decreases |s|
  {
    if |sub| == 0 then true
    else if |s| == 0 then false
    else if sub[0] == s[0] then Subsequence(sub[1..], s[1..])
    else Subsequence(sub, s[1..])
  }

  /** A filter keeps order: its result is a subsequence of its input. */
  lemma {:induction false} FilterIsSubsequence<T(!new)>(s: seq<T>, keep: T -> bool)
    ensures Subsequence(Filter(s, keep), s)
  {
    if |s| > 0 {
      FilterIsSubsequence(s[1..], keep);
      var r := Filter(s, keep);
      if keep(s[0]) {
        assert r[0] == s[0] && r[1..] == Filter(s[1..], keep);
      } else {
        assert r == Filter(s[1..], keep);
        if |r| > 0 {
          assert r[0] in r;
        }
      }
    }
  }

  /** The index of the first occurrence of `x` in `s`. */
  function FirstIndex<T(==)>(s: seq<T>, x: T): (i: nat)
    requires x in s
    ensures i < |s| && s[i] == x
    ensures forall k :: 0 <= k < i ==> s[k] != x
  {
    if s[0] == x then 0 else 1 + FirstIndex(s[1..], x)
  }

  /** A first occurrence inside a prefix is the first occurrence in the whole. */
  lemma {:induction false} FirstIndexOfPrefix<T>(s: seq<T>, m: nat, x: T)
    requires m <= |s| && x in s[..m]
    ensures FirstIndex(s, x) == FirstIndex(s[..m], x)
  {
    var a := FirstIndex(s[..m], x);
    var b := FirstIndex(s, x);
    assert s[a] == s[..m][a] == x;
    assert b <= a;
    assert s[..m][b] == s[b] == x;
  }

  /** A last element that does not occur before it first occurs at the end. */
  lemma {:induction false} FirstIndexOfNewLast<T>(s: seq<T>)
    requires |s| > 0 && s[|s| - 1] !in s[..|s| - 1]
    ensures FirstIndex(s, s[|s| - 1]) == |s| - 1
  {
    var p := s[..|s| - 1];
    forall k | 0 <= k < |s| - 1 ensures s[k] != s[|s| - 1] {
      assert s[k] == p[k] && p[k] in p;
    }
  }

  /** One step of Distinct: the last element is either already listed or appended. */
  lemma {:induction false} DistinctStep<T(!new)>(s: seq<T>)
    requires |s| > 0
    ensures Distinct(s) == Distinct(s[..|s| - 1])
      || (Distinct(s) == Distinct(s[..|s| - 1]) + [s[|s| - 1]] && s[|s| - 1] !in s[..|s| - 1])
  { }

  /** Two values whose first occurrences are ordered in a prefix stay ordered in the whole. */
  lemma {:induction false} OrderInPrefix<T>(s: seq<T>, x: T, y: T)
    requires |s| > 0 && x in s[..|s| - 1] && y in s[..|s| - 1]
    requires FirstIndex(s[..|s| - 1], x) < FirstIndex(s[..|s| - 1], y)
    ensures FirstIndex(s, x) < FirstIndex(s, y)
  {
    FirstIndexOfPrefix(s, |s| - 1, x);
    FirstIndexOfPrefix(s, |s| - 1, y);
  }

  /** A value of the prefix first occurs before a last element that is new. */
  lemma {:induction false} OrderBeforeNewLast<T>(s: seq<T>, x: T)
    requires |s| > 0 && x in s[..|s| - 1] && s[|s| - 1] !in s[..|s| - 1]
    ensures FirstIndex(s, x) < FirstIndex(s, s[|s| - 1])
  {
    FirstIndexOfPrefix(s, |s| - 1, x);
    FirstIndexOfNewLast(s);
  }

  /** Distinct lists the values in the order of their first appearance. */
  lemma {:induction false} DistinctKeepsFirstAppearanceOrder<T(!new)>(s: seq<T>, i: int, j: int)
    requires 0 <= i < j < |Distinct(s)|
    ensures Distinct(s)[i] in s && Distinct(s)[j] in s
    ensures FirstIndex(s, Distinct(s)[i]) < FirstIndex(s, Distinct(s)[j])
    decreases |s|
  {
    var d := Distinct(s);
    var p := s[..|s| - 1];
    var prefix := Distinct(p);
    DistinctStep(s);
    assert d[i] == prefix[i] && prefix[i] in p;
    if j < |prefix| {
      assert d[j] == prefix[j] && prefix[j] in p;
      DistinctKeepsFirstAppearanceOrder(p, i, j);
      OrderInPrefix(s, prefix[i], prefix[j]);
    } else {
      assert d[j] == s[|s| - 1];
      OrderBeforeNewLast(s, prefix[i]);
    }
  }

  /** JavaScript `splice(i, 1)` on a copy: the list without index `i`. */
  function RemoveAt<T>(s: seq<T>, i: int): (r: seq<T>)
    requires 0 <= i < |s|
    ensures |r| == |s| - 1
    ensures forall k :: 0 <= k < i ==> r[k] == s[k]
    ensures forall k :: i <= k < |r| ==> r[k] == s[k + 1]
  {
    s[..i] + s[i + 1..]
  }

  /** Removing an index loses exactly that element and keeps the order of the others. */
  lemma RemoveAtLosesOne<T>(s: seq<T>, i: int)
    requires 0 <= i < |s|
    ensures multiset(RemoveAt(s, i)) + multiset{s[i]} == multiset(s)
    ensures s == RemoveAt(s, i)[..i] + [s[i]] + RemoveAt(s, i)[i..]
  {
    assert s == s[..i] + [s[i]] + s[i + 1..];
    assert RemoveAt(s, i)[..i] == s[..i];
    assert RemoveAt(s, i)[i..] == s[i + 1..];
  }

  /** The merge rule `if update != "" { field = update }` used by the
      repositories whose update DTOs mark an absent string by "". */
  function NonEmptyOr(update: string, current: string): string
  {
    if update != "" then update else current
  }

  /** The merge rule keeps the current value exactly when the update is
      empty, applying it twice is applying it once, and it never produces ""
      from a non-empty value. */
  lemma NonEmptyOrRules(update: string, current: string)
    ensures update == "" ==> NonEmptyOr(update, current) == current
    ensures update != "" ==> NonEmptyOr(update, current) == update
    ensures NonEmptyOr(update, NonEmptyOr(update, current)) == NonEmptyOr(update, current)
    ensures NonEmptyOr(update, current) == "" <==> update == "" && current == ""
  {
  }

  /** How encoding/json writes a Go slice that starts nil and is grown by
      `append`: it stays nil -- written `null` (`None`) -- when nothing was
      appended, and is an array of the elements otherwise. */
  function AppendedSliceJson<T>(s: seq<T>): (r: Option<seq<T>>)
    ensures r.None? <==> s == []
    ensures r.Some? ==> r.value == s
  {
    if s == [] then None else Some(s)
  }

  /** SQL `OFFSET skip LIMIT limit`: the elements from `skip` on, at most `limit` of them. */
  function Window<T>(s: seq<T>, skip: nat, limit: nat): (r: seq<T>)
    ensures |r| <= limit
    ensures |r| == if skip >= |s| then 0 else if |s| - skip < limit then |s| - skip else limit
    ensures forall i :: 0 <= i < |r| ==> skip + i < |s| && r[i] == s[skip + i]
  {
    if skip >= |s| then []
    else if skip + limit > |s| then s[skip..]
    else s[skip..skip + limit]
  }
}
