/**
 * PHP values and PHP's ordered arrays with string keys, as the logger uses them:
 * `$a[$k] = $v` (overwrite in place or append), projection of a record onto a
 * list of names, array_merge, truthiness and the string conversion implode uses.
 */
module PhpArrays {
  import opened Wrappers
  import opened PhpStrings

  /**
   * A PHP value. `List` is an array whose keys are 0..n-1 (what json_encode writes
   * as a JSON array); `Arr` is an array with string keys, in insertion order.
   */
  datatype Value =
    | Null
    | Bool(b: bool)
    | Int(i: int)
    | Str(s: string)
    | List(items: seq<Value>)
    | Arr(entries: seq<(string, Value)>)

  /** An ordered PHP array with string keys. */
  type Dict<V> = seq<(string, V)>

  function KeysOf<V>(d: Dict<V>): seq<string>
  {
    seq(|d|, i requires 0 <= i < |d| => d[i].0)
  }

  function ValuesOf<V>(d: Dict<V>): seq<V>
  {
    seq(|d|, i requires 0 <= i < |d| => d[i].1)
  }

  predicate Distinct(s: seq<string>)
  {
    forall i, j :: 0 <= i < j < |s| ==> s[i] != s[j]
  }

  /** $d[$k], or None when the key is not set. */
  function Get<V>(d: Dict<V>, k: string): Option<V>
  {
    if |d| == 0 then None
    else if d[0].0 == k then Some(d[0].1)
    else Get(d[1..], k)
  }

  /** $d[$k] = $v: the entry for `k` is overwritten where it stands, or appended when absent. */
  function Put<V>(d: Dict<V>, k: string, v: V): Dict<V>
  {
    if |d| == 0 then [(k, v)]
    else if d[0].0 == k then [(k, v)] + d[1..]
    else [d[0]] + Put(d[1..], k, v)
  }

  lemma KeysOfCons<V>(d: Dict<V>)
    requires |d| > 0
    ensures KeysOf(d) == [d[0].0] + KeysOf(d[1..])
  {
  }

  /** Writing a key keeps the order of the keys already present and appends a new one. */
  lemma {:induction false} PutKeys<V>(d: Dict<V>, k: string, v: V)
    ensures KeysOf(Put(d, k, v)) == if k in KeysOf(d) then KeysOf(d) else KeysOf(d) + [k]
  {
    if |d| > 0 {
      PutKeys(d[1..], k, v);
      KeysOfCons(d);
      KeysOfCons(Put(d, k, v));
      if d[0].0 != k {
        assert Put(d, k, v)[1..] == Put(d[1..], k, v);
      } else {
        assert Put(d, k, v)[1..] == d[1..];
      }
    }
  }

  /** A write never gives two entries the same key. */
  lemma PutDistinct<V>(d: Dict<V>, k: string, v: V)
    requires Distinct(KeysOf(d))
    ensures Distinct(KeysOf(Put(d, k, v)))
  {
    PutKeys(d, k, v);
    var keys := KeysOf(d);
    if k !in keys {
      forall i, j | 0 <= i < j < |keys + [k]|
        ensures (keys + [k])[i] != (keys + [k])[j]
      {
        if j == |keys| {
          assert (keys + [k])[i] == keys[i];
        }
      }
    }
  }

  /** The array written by a sequence of pairs, in order, each with $d[$k] = $v. */
  function PutAll<V>(pairs: seq<(string, V)>): Dict<V>
  {
    if |pairs| == 0 then []
    else Put(PutAll(pairs[..|pairs| - 1]), pairs[|pairs| - 1].0, pairs[|pairs| - 1].1)
  }

  /** However many pairs share a key, the array written from them holds it once. */
  lemma {:induction false} PutAllDistinct<V>(pairs: seq<(string, V)>)
    ensures Distinct(KeysOf(PutAll(pairs)))
  {
    if |pairs| > 0 {
      PutAllDistinct(pairs[..|pairs| - 1]);
      PutDistinct(PutAll(pairs[..|pairs| - 1]), pairs[|pairs| - 1].0, pairs[|pairs| - 1].1);
    }
  }

  /** Every entry after a write was there before, or is the written pair. */
  lemma {:induction false} PutEntries<V>(d: Dict<V>, k: string, v: V)
    ensures forall i :: 0 <= i < |Put(d, k, v)| ==> Put(d, k, v)[i] in d || Put(d, k, v)[i] == (k, v)
  {
    if |d| > 0 && d[0].0 != k {
      PutEntries(d[1..], k, v);
      var p := Put(d, k, v);
      forall i | 0 <= i < |p|
        ensures p[i] in d || p[i] == (k, v)
      {
        if i > 0 {
          assert p[i] == Put(d[1..], k, v)[i - 1];
        }
      }
    } else if |d| > 0 {
      var p := Put(d, k, v);
      forall i | 0 <= i < |p|
        ensures p[i] in d || p[i] == (k, v)
      {
        if i > 0 {
          assert p[i] == d[i];
        }
      }
    }
  }

  /** Writing a key absent from the array appends it. */
  lemma {:induction false} PutAbsent<V>(d: Dict<V>, k: string, v: V)
    requires k !in KeysOf(d)
    ensures Put(d, k, v) == d + [(k, v)]
  {
    if |d| > 0 {
      KeysOfCons(d);
      PutAbsent(d[1..], k, v);
      assert [d[0]] + (d[1..] + [(k, v)]) == d + [(k, v)];
    }
  }

  /** Reading after a write gives the written value for that key and the old value for the others. */
  lemma {:induction false} PutGet<V>(d: Dict<V>, k: string, v: V, k': string)
    ensures Get(Put(d, k, v), k') == if k' == k then Some(v) else Get(d, k')
  {
    if |d| > 0 && d[0].0 != k {
      PutGet(d[1..], k, v, k');
      assert Put(d, k, v)[1..] == Put(d[1..], k, v);
    } else if |d| > 0 {
      assert Put(d, k, v)[1..] == d[1..];
    }
  }

  /** A key absent from the array reads as unset. */
  lemma {:induction false} GetAbsent<V>(d: Dict<V>, k: string)
    requires k !in KeysOf(d)
    ensures Get(d, k) == None
  {
    if |d| > 0 {
      KeysOfCons(d);
      GetAbsent(d[1..], k);
    }
  }

  /** In an array without repeated keys, each entry is what its key reads. */
  lemma {:induction false} GetAt<V>(d: Dict<V>, j: nat)
    requires j < |d|
    requires Distinct(KeysOf(d))
    ensures Get(d, d[j].0) == Some(d[j].1)
  {
    if j > 0 {
      KeysOfCons(d);
      assert KeysOf(d)[0] != KeysOf(d)[j];
      assert KeysOf(d[1..]) == KeysOf(d)[1..];
      GetAt(d[1..], j - 1);
    }
  }

  /** Reading an array extended at the end: the old entry if the key was set, else the new one. */
  lemma {:induction false} GetAppend<V>(d: Dict<V>, k: string, v: V, n: string)
    ensures Get(d + [(k, v)], n) == if Get(d, n).Some? then Get(d, n) else if n == k then Some(v) else None
  {
    if |d| > 0 {
      assert (d + [(k, v)])[1..] == d[1..] + [(k, v)];
      GetAppend(d[1..], k, v, n);
    }
  }

  /** The names in order of first occurrence, later repetitions dropped. */
  function Dedup(names: seq<string>): seq<string>
  {
    if |names| == 0 then []
    else
      var d := Dedup(names[..|names| - 1]);
      if names[|names| - 1] in d then d else d + [names[|names| - 1]]
  }

  /** Dedup keeps exactly the names of its input, each once. */
  lemma {:induction false} DedupProps(names: seq<string>)
    ensures Distinct(Dedup(names))
    ensures forall n :: n in Dedup(names) <==> n in names
  {
    if |names| > 0 {
      var init := names[..|names| - 1];
      DedupProps(init);
      assert names == init + [names[|names| - 1]];
    }
  }

  /** A list without repetitions is its own Dedup. */
  lemma {:induction false} DedupOfDistinct(names: seq<string>)
    requires Distinct(names)
    ensures Dedup(names) == names
  {
    if |names| > 0 {
      var init := names[..|names| - 1];
      DedupOfDistinct(init);
      assert names[|names| - 1] !in init;
      assert names == init + [names[|names| - 1]];
    }
  }

  /** foreach ($names as $n) { $r[$n] = f($n); } starting from an empty array. */
  function Project<V>(names: seq<string>, f: string -> V): Dict<V>
  {
    if |names| == 0 then []
    else
      var last := names[|names| - 1];
      Put(Project(names[..|names| - 1], f), last, f(last))
  }

  /** A projection has exactly the requested names as keys, in order of first request. */
  lemma {:induction false} ProjectKeys<V>(names: seq<string>, f: string -> V)
    ensures KeysOf(Project(names, f)) == Dedup(names)
  {
    if |names| > 0 {
      var init := names[..|names| - 1];
      ProjectKeys(init, f);
      PutKeys(Project(init, f), names[|names| - 1], f(names[|names| - 1]));
    }
  }

  /** Every entry of a projection maps its name to that name's value. */
  lemma {:induction false} ProjectValues<V>(names: seq<string>, f: string -> V)
    ensures forall i :: 0 <= i < |Project(names, f)| ==> Project(names, f)[i].1 == f(Project(names, f)[i].0)
  {
    if |names| > 0 {
      var init := names[..|names| - 1];
      var last := names[|names| - 1];
      ProjectValues(init, f);
      PutEntries(Project(init, f), last, f(last));
    }
  }

  /** Reading a requested name from a projection gives that name's value. */
  lemma {:induction false} ProjectGet<V>(names: seq<string>, f: string -> V, n: string)
    ensures Get(Project(names, f), n) == if n in names then Some(f(n)) else None
  {
    if |names| > 0 {
      var init := names[..|names| - 1];
      var last := names[|names| - 1];
      ProjectGet(init, f, n);
      PutGet(Project(init, f), last, f(last), n);
      assert names == init + [last];
    }
  }

  /** Projecting onto names without repetitions gives one entry per name, in order. */
  lemma {:induction false} ProjectDistinct<V>(names: seq<string>, f: string -> V)
    requires Distinct(names)
    ensures Project(names, f) == seq(|names|, i requires 0 <= i < |names| => (names[i], f(names[i])))
  {
    if |names| > 0 {
      var init := names[..|names| - 1];
      var last := names[|names| - 1];
      ProjectDistinct(init, f);
      ProjectKeys(init, f);
      DedupOfDistinct(init);
      assert last !in init;
      PutAbsent(Project(init, f), last, f(last));
    }
  }

  /** Keys and values determine an array: anything with a projection's keys and values is that projection. */
  lemma ProjectUnique<V>(d: Dict<V>, names: seq<string>, f: string -> V)
    requires KeysOf(d) == Dedup(names)
    requires forall i :: 0 <= i < |d| ==> d[i].1 == f(d[i].0)
    ensures d == Project(names, f)
  {
    var p := Project(names, f);
    ProjectKeys(names, f);
    ProjectValues(names, f);
    assert |d| == |KeysOf(d)| == |KeysOf(p)| == |p|;
    forall i | 0 <= i < |d|
      ensures d[i] == p[i]
    {
      assert KeysOf(d)[i] == KeysOf(p)[i];
    }
  }

  /** array_merge($a, $b) for string keys: $b's entries written over a copy of $a, in order. */
  function ArrayMerge<V>(a: Dict<V>, b: Dict<V>): Dict<V>
  {
    if |b| == 0 then a
    else
      var last := b[|b| - 1];
      Put(ArrayMerge(a, b[..|b| - 1]), last.0, last.1)
  }

  /** When no key is shared and $b has no repeated key, array_merge is concatenation. */
  lemma {:induction false} MergeDisjoint<V>(a: Dict<V>, b: Dict<V>)
    requires forall i :: 0 <= i < |b| ==> b[i].0 !in KeysOf(a)
    requires Distinct(KeysOf(b))
    ensures ArrayMerge(a, b) == a + b
  {
    if |b| > 0 {
      var init := b[..|b| - 1];
      var last := b[|b| - 1];
      assert KeysOf(init) == KeysOf(b)[..|b| - 1];
      MergeDisjoint(a, init);
      forall j | 0 <= j < |init|
        ensures KeysOf(init)[j] != last.0
      {
        assert KeysOf(b)[j] != KeysOf(b)[|b| - 1];
      }
      assert last.0 !in KeysOf(init);
      assert KeysOf(a + init) == KeysOf(a) + KeysOf(init);
      PutAbsent(a + init, last.0, last.1);
      assert b == init + [last];
    }
  }

  /** A list of strings as a PHP value. */
  function StrList(items: seq<string>): Value
  {
    List(seq(|items|, i requires 0 <= i < |items| => Str(items[i])))
  }

  /** An array of strings with string keys as a PHP value. */
  function StrArray(d: Dict<string>): Value
  {
    Arr(seq(|d|, i requires 0 <= i < |d| => (d[i].0, Str(d[i].1))))
  }

  /** After array_merge a key reads as in $b when $b sets it, else as in $a. */
  lemma {:induction false} MergeGet<V>(a: Dict<V>, b: Dict<V>, k: string)
    requires Distinct(KeysOf(b))
    ensures Get(ArrayMerge(a, b), k) == if k in KeysOf(b) then Get(b, k) else Get(a, k)
  {
    if |b| > 0 {
      var init := b[..|b| - 1];
      var last := b[|b| - 1];
      assert KeysOf(init) == KeysOf(b)[..|b| - 1];
      assert b == init + [last];
      assert KeysOf(b) == KeysOf(init) + [last.0];
      MergeGet(a, init, k);
      PutGet(ArrayMerge(a, init), last.0, last.1, k);
      GetAppend(init, last.0, last.1, k);
      if k == last.0 {
        assert k !in KeysOf(init) by {
          forall j | 0 <= j < |init|
            ensures KeysOf(init)[j] != k
          {
            assert KeysOf(b)[j] != KeysOf(b)[|b| - 1];
          }
        }
        GetAbsent(init, k);
      } else if k in KeysOf(init) {
        var j :| 0 <= j < |init| && KeysOf(init)[j] == k;
        GetAt(init, j);
        assert KeysOf(b)[j] == k;
        GetAt(b, j);
      } else {
        GetAbsent(init, k);
      }
    }
  }

  /** The keys of a concatenation are the keys of each part, in order. */
  lemma KeysOfConcat<V>(a: Dict<V>, b: Dict<V>)
    ensures KeysOf(a + b) == KeysOf(a) + KeysOf(b)
  {
  }

  /** array_merge of two projections onto disjoint name lists is their concatenation. */
  lemma MergeProjections<V>(rn: seq<string>, sn: seq<string>, f: string -> V, g: string -> V)
    requires forall n :: !(n in rn && n in sn)
    ensures ArrayMerge(Project(rn, f), Project(sn, g)) == Project(rn, f) + Project(sn, g)
    ensures KeysOf(Project(rn, f) + Project(sn, g)) == Dedup(rn) + Dedup(sn)
  {
    var a := Project(rn, f);
    var b := Project(sn, g);
    ProjectKeys(rn, f);
    ProjectKeys(sn, g);
    DedupProps(rn);
    DedupProps(sn);
    forall i | 0 <= i < |b|
      ensures b[i].0 !in KeysOf(a)
    {
      assert KeysOf(b)[i] == b[i].0;
      assert b[i].0 in Dedup(sn);
      assert b[i].0 !in rn;
    }
    MergeDisjoint(a, b);
    KeysOfConcat(a, b);
  }

  /** PHP's conversion to bool: null, false, 0, "", "0" and the empty array are false. */
  predicate Truthy(v: Value)
  {
    match v
    case Null => false
    case Bool(b) => b
    case Int(i) => i != 0
    case Str(s) => !IsEmpty(s)
    case List(items) => |items| > 0
    case Arr(entries) => |entries| > 0
  }

  predicate IsArray(v: Value)
  {
    v.List? || v.Arr?
  }

  /** The string implode() makes of a value: null and false give "", true "1", an array "Array". */
  function ScalarText(v: Value): string
  {
    match v
    case Null => ""
    case Bool(b) => if b then "1" else ""
    case Int(i) => IntToString(i)
    case Str(s) => s
    case List(_) => "Array"
    case Arr(_) => "Array"
  }
}
