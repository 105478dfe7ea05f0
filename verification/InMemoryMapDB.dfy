/**
 The in-memory database: a map from keys to Go slices.  A slice is a prefix of a backing array, and
 `append` writes in place while the array has room, so a slice that was handed out shares its array
 with the live one.
 */
module InMemoryMapDB {
  import opened Sequences

  /** A Go slice starting at element 0 of its backing array; its capacity is the length of the array. */
  datatype Slice<!T> = Slice(arr: array<T>, len: nat)

  /** A slice that was returned to a caller, with what the caller saw in it. */
  datatype Issued<!T> = Issued(slice: Slice<T>, contents: seq<T>)

  // ---------- The abstract behaviour: a map from keys to sequences ----------

  type Contents<T> = map<string, seq<T>>

  datatype Op<T> = Put(key: string, value: T) | Get(key: string) | GetNClean(key: string) | Delete(key: string) | Clear

  function Lookup<T>(c: Contents<T>, key: string): Option<seq<T>> {
    if key in c then Some(c[key]) else None
  }

  function Apply<T>(c: Contents<T>, op: Op<T>): Contents<T> {
    match op
    case Put(key, value) => c[key := (if key in c then c[key] else []) + [value]]
    case Get(_) => c
    case GetNClean(key) => if key in c then c[key := []] else c
    case Delete(key) => c - {key}
    case Clear => map[]
  }

  /** What an operation returns: nothing for the updates, the current sequence (if any) for the reads. */
  function Output<T>(c: Contents<T>, op: Op<T>): Option<seq<T>> {
    match op
    case Get(key) => Lookup(c, key)
    case GetNClean(key) => Lookup(c, key)
    case _ => None
  }

  function ApplyAll<T>(c: Contents<T>, ops: seq<Op<T>>): Contents<T> {
    if ops == [] then c else Apply(ApplyAll(c, ops[..|ops| - 1]), ops[|ops| - 1])
  }

  /** Everything put under a key is returned by exactly one drain or is still stored, in order (no deletes). */
  function Drained<T>(c: Contents<T>, ops: seq<Op<T>>, key: string): seq<T> {
    if ops == [] then []
    else
      var before := ApplyAll(c, ops[..|ops| - 1]);
      Drained(c, ops[..|ops| - 1], key)
      + if ops[|ops| - 1] == GetNClean(key) && key in before then before[key] else []
  }

  function PutValues<T>(ops: seq<Op<T>>, key: string): seq<T> {
    if ops == [] then []
    else PutValues(ops[..|ops| - 1], key)
         + match ops[|ops| - 1] case Put(k, v) => (if k == key then [v] else []) case _ => []
  }

  lemma {:induction false} DrainsLoseNothing<T>(ops: seq<Op<T>>, key: string)
    requires forall op :: op in ops ==> !op.Delete? && !op.Clear?
    ensures var c := ApplyAll(map[], ops);
            PutValues(ops, key) == Drained(map[], ops, key) + if key in c then c[key] else []
  {
    if ops != [] {
      DrainsLoseNothing(ops[..|ops| - 1], key);
      assert ops[|ops| - 1] in ops;
    }
  }

  /** What each operation does to the key it names, and to every other key. */
  lemma OperationEffects<T>(c: Contents<T>, key: string, value: T, other: string)
    requires other != key
    ensures Lookup(Apply(c, Op.Put(key, value)), key)
         == Some(match Lookup(c, key) case None => [value] case Some(values) => values + [value])
    ensures Output(c, Op<T>.GetNClean(key)) == Lookup(c, key)
    ensures Lookup(Apply(c, Op.GetNClean(key)), key) == if key in c then Some([]) else None
    ensures Lookup(Apply(c, Op.Delete(key)), key) == None
    ensures Apply(c, Op.Get(key)) == c && Output(c, Op<T>.Get(key)) == Lookup(c, key)
    ensures Lookup(Apply(c, Op<T>.Clear), key) == None
    ensures forall op :: op == Op.Put(key, value) || op == Op.GetNClean(key) || op == Op.Delete(key) ==>
              Lookup(Apply(c, op), other) == Lookup(c, other)
  {
    assert [] + [value] == [value];
  }

  lemma PutIsUpdate<T>(c: Contents<T>, withBucket: Contents<T>, key: string, value: T)
    requires withBucket == if key in c then c else c[key := []]
    ensures withBucket[key := withBucket[key] + [value]] == Apply(c, Op.Put(key, value))
  {
  }

  // ---------- The implementation ----------

  /** The live slices show the contents, and lie in known arrays. */
  ghost predicate LiveSlicesShow<T>(m: map<string, Slice<T>>, contents: Contents<T>, arrays: set<array<T>>)
    reads arrays
  {
    && m.Keys == contents.Keys
    && forall k :: k in m ==>
         && m[k].arr in arrays && m[k].len <= m[k].arr.Length
         && m[k].arr[..m[k].len] == contents[k]
  }

  ghost predicate BucketsAreSeparate<T>(m: map<string, Slice<T>>) {
    forall k, l :: k in m && l in m && k != l ==> m[k].arr != m[l].arr
  }

  /** Every issued slice still shows what its receiver saw. */
  ghost predicate IssuedSlicesShow<T>(issued: set<Issued<T>>, arrays: set<array<T>>)
    reads arrays
  {
    forall r :: r in issued ==>
      && r.slice.arr in arrays && r.slice.len <= r.slice.arr.Length
      && r.slice.arr[..r.slice.len] == r.contents
  }

  /** A live slice that shares its array with an issued one is at least as long, so appends write behind both. */
  ghost predicate IssuedSlicesAreShorter<T>(issued: set<Issued<T>>, m: map<string, Slice<T>>) {
    forall r, k :: r in issued && k in m && m[k].arr == r.slice.arr ==> r.slice.len <= m[k].len
  }

  /** Each result is the expected one, and a returned slice is on record with the expected contents. */
  ghost predicate Answered<T>(
    results: seq<Option<Slice<T>>>, start: Contents<T>, ops: seq<Op<T>>, issued: set<Issued<T>>)
  {
    && |results| == |ops|
    && forall i :: 0 <= i < |ops| ==>
         var expected := Output(ApplyAll(start, ops[..i]), ops[i]);
         && (results[i].Some? <==> expected.Some?)
         && (results[i].Some? ==> Issued(results[i].value, expected.value) in issued)
  }

  lemma AnsweredExtends<T>(results: seq<Option<Slice<T>>>, result: Option<Slice<T>>, start: Contents<T>,
                           ops: seq<Op<T>>, op: Op<T>, issued: set<Issued<T>>, later: set<Issued<T>>)
    requires Answered(results, start, ops, issued) && issued <= later
    requires var expected := Output(ApplyAll(start, ops), op);
             && (result.Some? <==> expected.Some?)
             && (result.Some? ==> Issued(result.value, expected.value) in later)
    ensures Answered(results + [result], start, ops + [op], later)
  {
    hide Output, ApplyAll;
    assert (ops + [op])[..|ops|] == ops;
    assert forall i :: 0 <= i < |ops| ==> (ops + [op])[..i] == ops[..i];
  }

  lemma PointingKeyElsewhere<T>(m: map<string, Slice<T>>, contents: Contents<T>, arrays: set<array<T>>,
                                issued: set<Issued<T>>, key: string, slice: Slice<T>)
    requires LiveSlicesShow(m, contents, arrays) && BucketsAreSeparate(m)
    requires IssuedSlicesShow(issued, arrays) && IssuedSlicesAreShorter(issued, m)
    requires slice.arr !in arrays && slice.len <= slice.arr.Length
    ensures LiveSlicesShow(m[key := slice], contents[key := slice.arr[..slice.len]], arrays + {slice.arr})
    ensures BucketsAreSeparate(m[key := slice])
    ensures IssuedSlicesShow(issued, arrays + {slice.arr})
    ensures IssuedSlicesAreShorter(issued, m[key := slice])
  {
  }

  lemma LengtheningKey<T>(m: map<string, Slice<T>>, contents: Contents<T>, arrays: set<array<T>>,
                          issued: set<Issued<T>>, key: string)
    requires LiveSlicesShow(m, contents, arrays) && BucketsAreSeparate(m) && IssuedSlicesAreShorter(issued, m)
    requires key in m && m[key].len < m[key].arr.Length
    ensures var longer := m[key := Slice(m[key].arr, m[key].len + 1)];
            && LiveSlicesShow(longer, contents[key := contents[key] + [m[key].arr[m[key].len]]], arrays)
            && BucketsAreSeparate(longer)
            && IssuedSlicesAreShorter(issued, longer)
  {
    var live := m[key];
    assert live.arr[..live.len + 1] == live.arr[..live.len] + [live.arr[live.len]];
  }

  lemma Issuing<T>(
    m: map<string, Slice<T>>, contents: Contents<T>, arrays: set<array<T>>, issued: set<Issued<T>>, key: string)
    requires LiveSlicesShow(m, contents, arrays) && BucketsAreSeparate(m)
    requires IssuedSlicesShow(issued, arrays) && IssuedSlicesAreShorter(issued, m)
    requires key in m
    ensures IssuedSlicesShow(issued + {Issued(m[key], contents[key])}, arrays)
    ensures IssuedSlicesAreShorter(issued + {Issued(m[key], contents[key])}, m)
  {
  }

  /** The copy that a reallocation makes. */
  method Reallocate<T(0)>(from: Slice<T>, cap: nat) returns (r: Slice<T>)
    requires from.len <= from.arr.Length && from.len <= cap
    ensures fresh(r.arr) && r.arr.Length == cap && r.len == from.len
    ensures r.arr[..r.len] == from.arr[..from.len]
  {
    var a := new T[cap];
    forall i | 0 <= i < from.len {
      a[i] := from.arr[i];
    }
    r := Slice(a, from.len);
  }

  class InMemoryMapDB<T(0)> {
    var m: map<string, Slice<T>>
    const defaultInitialCap: nat
    /** What the map shows through its slices. */
    ghost var contents: Contents<T>
    /** Every backing array the database ever used. */
    ghost var arrays: set<array<T>>
    /** Every slice Get or GetNClean ever returned. */
    ghost var issued: set<Issued<T>>

    ghost predicate Valid()
      reads this, arrays
    {
      && LiveSlicesShow(m, contents, arrays)
      && BucketsAreSeparate(m)
      && IssuedSlicesShow(issued, arrays)
      && IssuedSlicesAreShorter(issued, m)
    }

    /** The requested capacity is not stored. */
    constructor (requestedCap: nat)
      ensures Valid() && contents == map[] && issued == {} && arrays == {}
      ensures defaultInitialCap == 0
    {
      m, contents := map[], map[];
      defaultInitialCap := 0;
      arrays := {};
      issued := {};
    }

    /** Point `key` at a new array of the given capacity that holds a copy of `from`. */
    method Rebind(key: string, cap: nat, from: Slice<T>)
      requires Valid() && from.len <= from.arr.Length && from.len <= cap
      modifies this`m, this`contents, this`arrays
      ensures Valid() && fresh(arrays - old(arrays)) && old(arrays) <= arrays
      ensures contents == old(contents)[key := from.arr[..from.len]]
      ensures key in m && m[key].len == from.len && m[key].arr.Length == cap
    {
      hide LiveSlicesShow, BucketsAreSeparate, IssuedSlicesShow, IssuedSlicesAreShorter;
      var copy := Reallocate(from, cap);
      PointingKeyElsewhere(m, contents, arrays, issued, key, copy);
      m := m[key := copy];
      contents := contents[key := copy.arr[..copy.len]];
      arrays := arrays + {copy.arr};
    }

    /** Write behind the visible part of the live slice: no slice shows it. */
    method WriteBehind(key: string, value: T)
      requires Valid() && key in m && m[key].len < m[key].arr.Length
      modifies m[key].arr
      ensures LiveSlicesShow(m, contents, arrays) && IssuedSlicesShow(issued, arrays)
      ensures m[key].arr[m[key].len] == value
    {
      var live := m[key];
      live.arr[live.len] := value;
      forall k | k in m
        ensures m[k].arr[..m[k].len] == contents[k]
      {
        assert m[k].arr[..m[k].len] == old(m[k].arr[..m[k].len]);
      }
      forall r | r in issued
        ensures r.slice.arr[..r.slice.len] == r.contents
      {
        assert r.slice.arr[..r.slice.len] == old(r.slice.arr[..r.slice.len]);
      }
    }

    /** Append in place. */
    method WriteInPlace(key: string, value: T)
      requires Valid() && key in m && m[key].len < m[key].arr.Length
      requires key in contents
      modifies this`m, this`contents, m[key].arr
      ensures Valid()
      ensures contents == old(contents)[key := old(contents)[key] + [value]]
    {
      hide LiveSlicesShow, BucketsAreSeparate, IssuedSlicesShow, IssuedSlicesAreShorter;
      WriteBehind(key, value);
      LengtheningKey(m, contents, arrays, issued, key);
      m := m[key := Slice(m[key].arr, m[key].len + 1)];
      contents := contents[key := contents[key] + [value]];
    }

    /** An empty bucket if there is none. */
    method EnsureBucket(key: string)
      requires Valid()
      modifies this`m, this`contents, this`arrays
      ensures Valid() && fresh(arrays - old(arrays)) && old(arrays) <= arrays
      ensures key in m && contents == if key in old(contents) then old(contents) else old(contents)[key := []]
    {
      if key !in m {
        var nothing := new T[0];
        Rebind(key, defaultInitialCap, Slice(nothing, 0));
      }
    }

    /** The reallocation that append does when the array is full. */
    method EnsureRoom(key: string)
      requires Valid() && key in m
      modifies this`m, this`contents, this`arrays
      ensures Valid() && fresh(arrays - old(arrays)) && old(arrays) <= arrays
      ensures key in m && key in contents && m[key].len < m[key].arr.Length && m[key].arr in arrays
      ensures contents == old(contents)
    {
      if m[key].len == m[key].arr.Length {
        assert m[key].len + 1 > m[key].len;
        var newCap: nat :| newCap > m[key].len;
        Rebind(key, newCap, m[key]);
      }
    }

    method Put(key: string, value: T)
      requires Valid()
      modifies this`m, this`contents, this`arrays, arrays
      ensures Valid() && fresh(arrays - old(arrays)) && old(arrays) <= arrays
      ensures contents == Apply(old(contents), Op.Put(key, value))
    {
      hide LiveSlicesShow, BucketsAreSeparate, IssuedSlicesShow, IssuedSlicesAreShorter, Apply;
      EnsureBucket(key);
      EnsureRoom(key);
      PutIsUpdate(old(contents), contents, key, value);
      WriteInPlace(key, value);
    }

    method Get(key: string) returns (r: Option<Slice<T>>)
      requires Valid()
      modifies this`issued
      ensures Valid() && old(issued) <= issued
      ensures r.Some? <==> key in contents
      ensures r.Some? ==> key in m && r.value == m[key] && Issued(r.value, contents[key]) in issued
    {
      if key in m {
        Issuing(m, contents, arrays, issued, key);
        r := Some(m[key]);
        issued := issued + {Issued(m[key], contents[key])};
      } else {
        r := None;
      }
    }

    /** Hand out the live slice and replace it by an empty one with the old length as capacity. */
    method GetNClean(key: string) returns (r: Option<Slice<T>>)
      requires Valid()
      modifies this`m, this`contents, this`arrays, this`issued
      ensures Valid() && fresh(arrays - old(arrays)) && old(arrays) <= arrays && old(issued) <= issued
      ensures contents == Apply(old(contents), Op.GetNClean(key))
      ensures r.Some? <==> key in old(contents)
      ensures r.Some? ==> Issued(r.value, old(contents)[key]) in issued
      ensures r.Some? ==> key in m && m[key].arr.Length == r.value.len
    {
      hide LiveSlicesShow, BucketsAreSeparate, IssuedSlicesShow, IssuedSlicesAreShorter;
      r := Get(key);
      if r.Some? {
        var nothing := new T[0];
        Rebind(key, r.value.len, Slice(nothing, 0));
      }
    }

    method Delete(key: string)
      requires Valid()
      modifies this`m, this`contents
      ensures Valid()
      ensures contents == Apply(old(contents), Op.Delete(key))
    {
      m := m - {key};
      contents := contents - {key};
    }

    method Clear()
      requires Valid()
      modifies this`m, this`contents
      ensures Valid()
      ensures contents == map[]
    {
      m, contents := map[], map[];
    }

    method Perform(op: Op<T>) returns (result: Option<Slice<T>>)
      requires Valid()
      modifies this, arrays
      ensures Valid() && fresh(arrays - old(arrays)) && old(arrays) <= arrays && old(issued) <= issued
      ensures contents == Apply(old(contents), op)
      ensures var expected := Output(old(contents), op);
              && (result.Some? <==> expected.Some?)
              && (result.Some? ==> Issued(result.value, expected.value) in issued)
    {
      result := None;
      match op {
        case Put(key, value) => Put(key, value);
        case Get(key) => result := Get(key);
        case GetNClean(key) => result := GetNClean(key);
        case Delete(key) => Delete(key);
        case Clear => Clear();
      }
    }

    /**
     Any run of operations by read-only callers: the database behaves as a map from keys to
     sequences, and every slice ever returned, before the run or at any point in it, still shows
     at the end exactly what the map held when it was returned.
     */
    method Run(ops: seq<Op<T>>) returns (results: seq<Option<Slice<T>>>)
      requires Valid()
      modifies this, arrays
      ensures Valid() && fresh(arrays - old(arrays)) && old(arrays) <= arrays
      ensures contents == ApplyAll(old(contents), ops)
      ensures old(issued) <= issued
      ensures |results| == |ops|
      ensures forall i :: 0 <= i < |ops| ==>
                var expected := Output(ApplyAll(old(contents), ops[..i]), ops[i]);
                && (results[i].Some? <==> expected.Some?)
                && (results[i].Some? ==>
                      && results[i].value.len <= results[i].value.arr.Length
                      && results[i].value.arr[..results[i].value.len] == expected.value)
    {
      results := [];
      ghost var start := contents;
      for n := 0 to |ops|
        invariant Valid() && fresh(arrays - old(arrays)) && old(arrays) <= arrays
        invariant old(issued) <= issued
        invariant contents == ApplyAll(start, ops[..n])
        invariant Answered(results, start, ops[..n], issued)
      {
        assert ops[..n + 1] == ops[..n] + [ops[n]];
        ghost var before := issued;
        var result := Perform(ops[n]);
        AnsweredExtends(results, result, start, ops[..n], ops[n], before, issued);
        results := results + [result];
      }
      assert ops[..|ops|] == ops;
    }
  }
}
