/** Shared vocabulary of the model: optional values, record ids, and the
    operations on sequences of `_id`-carrying records that both the Redux
    slices and the backend store are built from. */
module Common {

  /** A value that may be absent (JavaScript `null` / `undefined`). */
  datatype Option<+T> = None | Some(value: T)

  /** A MongoDB ObjectId as it travels in JSON: an opaque string. */
  type Id = string

  /** No two elements share a key. */
  ghost predicate Unique<T>(s: seq<T>, key: T -> Id) {
    forall i, j :: 0 <= i < j < |s| ==> key(s[i]) != key(s[j])
  }

  /** Some element has key `id`. */
  predicate Has<T>(s: seq<T>, key: T -> Id, id: Id) {
    exists i :: 0 <= i < |s| && key(s[i]) == id
  }

  /** The keys of a sequence, in order. */
  function Ids<T>(s: seq<T>, key: T -> Id): (r: seq<Id>)
    ensures |r| == |s|
    ensures forall i :: 0 <= i < |s| ==> r[i] == key(s[i])
    decreases |s|
  {
    if |s| == 0 then [] else [key(s[0])] + Ids(s[1..], key)
  }

  /** `Array.prototype.findIndex` with an `_id` test: the index of the first
      element whose key is `id`, or -1 when there is none. */
  function FindIndex<T>(s: seq<T>, key: T -> Id, id: Id): (r: int)
    ensures -1 <= r < |s|
    ensures r == -1 <==> !Has(s, key, id)
    ensures 0 <= r ==> key(s[r]) == id
    ensures 0 <= r ==> forall i :: 0 <= i < r ==> key(s[i]) != id
    decreases |s|
  {
    if |s| == 0 then -1
    else if key(s[0]) == id then 0
    else
      var k := FindIndex(s[1..], key, id);
      assert forall i :: 0 < i < |s| ==> s[i] == s[1..][i - 1];
      if k == -1 then -1 else k + 1
  }

  /** `Array.prototype.find` with an `_id` test. */
  function Find<T>(s: seq<T>, key: T -> Id, id: Id): (r: Option<T>)
    ensures r.None? <==> !Has(s, key, id)
    ensures r.Some? ==> r.value in s && key(r.value) == id
    ensures r.Some? ==> r.value == s[FindIndex(s, key, id)]
  {
    var k := FindIndex(s, key, id);
    if k == -1 then None else Some(s[k])
  }

  /** `s.map(x => key(x) === key(y) ? y : x)`: every element with the key of
      `y` is replaced by `y`. */
  function ReplaceWhere<T>(s: seq<T>, key: T -> Id, y: T): (r: seq<T>)
    ensures |r| == |s|
    ensures forall i :: 0 <= i < |s| && key(s[i]) == key(y) ==> r[i] == y
    ensures forall i :: 0 <= i < |s| && key(s[i]) != key(y) ==> r[i] == s[i]
    decreases |s|
  {
    if |s| == 0 then []
    else
      var rest := ReplaceWhere(s[1..], key, y);
      assert forall i :: 0 < i < |s| ==> s[i] == s[1..][i - 1];
      [if key(s[0]) == key(y) then y else s[0]] + rest
  }

  /** `i = s.findIndex(x => key(x) === key(y)); if (i !== -1) s[i] = y`. */
  function ReplaceFirst<T>(s: seq<T>, key: T -> Id, y: T): (r: seq<T>)
    ensures |r| == |s|
    ensures !Has(s, key, key(y)) ==> r == s
    ensures Has(s, key, key(y)) ==> y in r
    ensures Has(s, key, key(y)) ==> r == s[FindIndex(s, key, key(y)) := y]
    ensures forall i :: 0 <= i < |s| && r[i] != s[i] ==>
              r[i] == y && key(s[i]) == key(y) && forall j :: 0 <= j < i ==> key(s[j]) != key(y)
  {
    var k := FindIndex(s, key, key(y));
    if k == -1 then s else assert s[k := y][k] == y; s[k := y]
  }

  /** `s.filter(x => key(x) !== id)`. */
  function RemoveWhere<T>(s: seq<T>, key: T -> Id, id: Id): (r: seq<T>)
    ensures |r| <= |s|
    ensures !Has(r, key, id)
    ensures !Has(s, key, id) ==> r == s
    decreases |s|
  {
    if |s| == 0 then []
    else
      var rest := RemoveWhere(s[1..], key, id);
      assert forall i :: 0 < i < |s| ==> s[i] == s[1..][i - 1];
      if key(s[0]) == id then rest else [s[0]] + rest
  }

  /** The filter keeps exactly the elements whose key differs from `id`:
      everything it returns comes from `s`, and nothing else is dropped. */
  lemma {:induction false} RemoveWhereKeeps<T>(s: seq<T>, key: T -> Id, id: Id)
    ensures forall x :: x in RemoveWhere(s, key, id) ==> x in s
    ensures forall i :: 0 <= i < |s| && key(s[i]) != id ==> s[i] in RemoveWhere(s, key, id)
    decreases |s|
  {
    if |s| > 0 {
      RemoveWhereKeeps(s[1..], key, id);
      assert forall i :: 0 < i < |s| ==> s[i] == s[1..][i - 1];
      assert forall x :: x in s[1..] ==> x in s;
    }
  }

  /** Filtering distributes over concatenation: the kept elements stay in
      their original relative order. */
  lemma {:induction false} RemoveWhereAppend<T>(a: seq<T>, b: seq<T>, key: T -> Id, id: Id)
    ensures RemoveWhere(a + b, key, id) == RemoveWhere(a, key, id) + RemoveWhere(b, key, id)
    decreases |a|
  {
    if |a| == 0 {
      assert a + b == b;
    } else {
      assert (a + b)[1..] == a[1..] + b;
      RemoveWhereAppend(a[1..], b, key, id);
    }
  }

  /** Filtering the same id twice is the same as filtering it once. */
  lemma {:induction false} RemoveWhereIdempotent<T>(s: seq<T>, key: T -> Id, id: Id)
    ensures RemoveWhere(RemoveWhere(s, key, id), key, id) == RemoveWhere(s, key, id)
  {
  }

  /** When keys are unique, replacing the first match and replacing every
      match agree. */
  lemma ReplaceFirstIsReplaceWhereWhenUnique<T>(s: seq<T>, key: T -> Id, y: T)
    requires Unique(s, key)
    ensures ReplaceFirst(s, key, y) == ReplaceWhere(s, key, y)
  {
    var a, b := ReplaceFirst(s, key, y), ReplaceWhere(s, key, y);
    var k := FindIndex(s, key, key(y));
    forall i | 0 <= i < |s| ensures a[i] == b[i] {
      if k != -1 && k < i {
        assert key(s[k]) != key(s[i]);
      }
    }
  }

  /** Length of the longest id in `ids`. */
  function MaxLength(ids: seq<Id>): (m: nat)
    ensures forall i :: 0 <= i < |ids| ==> |ids[i]| <= m
    ensures |ids| > 0 ==> exists i :: 0 <= i < |ids| && |ids[i]| == m
    decreases |ids|
  {
    if |ids| == 0 then 0
    else
      var m := MaxLength(ids[1..]);
      assert forall i :: 0 < i < |ids| ==> ids[i] == ids[1..][i - 1];
      if |ids[0]| >= m then |ids[0]| else m
  }

  /** An id that none of `used` has: the database's ObjectId generator,
      reduced to the one property the controllers rely on. */
  function FreshId(used: seq<Id>): (r: Id)
    ensures r !in used
  {
    var r := seq(MaxLength(used) + 1, _ => 'x');
    assert forall i :: 0 <= i < |used| ==> |used[i]| < |r|;
    r
  }
}
