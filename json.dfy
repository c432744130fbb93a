/** JSON values as Python's `json` module hands them to the radio player.
    Objects keep their keys in insertion order, as Python dicts do. */
module Json {
  import opened Wrappers
  import Text

  /** A decoded JSON document. Numbers are integers only. */
  datatype Value =
    | Null
    | Bool(b: bool)
    | Int(n: int)
    | Str(s: string)
    | Array(items: seq<Value>)
    | Object(fields: Entries)

  /** The entries of a dict, in insertion order. */
  type Entries = seq<(string, Value)>

  /** Python truthiness: `None`, `False`, `0`, `""`, `[]` and `{}` are false. */
  predicate Truthy(v: Value) {
    match v
    case Null => false
    case Bool(b) => b
    case Int(n) => n != 0
    case Str(s) => s != ""
    case Array(xs) => xs != []
    case Object(fs) => fs != []
  }

  /** `x or default` where `x` is a fetch result and `None` stands for a failed fetch. */
  function OrElse(x: Option<Value>, default: Value): (r: Value)
    ensures x.Some? && Truthy(x.value) ==> r == x.value
    ensures (x.None? || !Truthy(x.value)) ==> r == default
  {
    if x.Some? && Truthy(x.value) then x.value else default
  }

  /** `v or default` on two JSON values. */
  function Or(v: Value, default: Value): (r: Value)
    ensures Truthy(v) ==> r == v
    ensures !Truthy(v) ==> r == default
  {
    if Truthy(v) then v else default
  }

  /** The keys of a dict, in iteration order. */
  function Keys(fs: Entries): (ks: seq<string>)
    ensures |ks| == |fs|
    ensures forall i :: 0 <= i < |fs| ==> ks[i] == fs[i].0
  {
    if fs == [] then [] else [fs[0].0] + Keys(fs[1..])
  }

  /** No key is repeated: every Python dict has this property. */
  predicate Distinct(ks: seq<string>) {
    forall i, j :: 0 <= i < j < |ks| ==> ks[i] != ks[j]
  }

  predicate DistinctKeys(fs: Entries) {
    Distinct(Keys(fs))
  }

  /** The value stored under `k`: `d[k]` when `k in d`. */
  function Lookup(fs: Entries, k: string): Option<Value> {
    if fs == [] then None else if fs[0].0 == k then Some(fs[0].1) else Lookup(fs[1..], k)
  }

  /** `d.get(k, default)`. */
  function Get(fs: Entries, k: string, default: Value): Value {
    match Lookup(fs, k)
    case Some(v) => v
    case None => default
  }

  /** `Lookup` finds a key exactly when it is present, and then returns the value of its first entry. */
  lemma {:induction false} LookupFindsFirst(fs: Entries, k: string)
    ensures Lookup(fs, k).Some? <==> k in Keys(fs)
    ensures k in Keys(fs) ==> exists i :: (0 <= i < |fs| && fs[i].0 == k && Lookup(fs, k) == Some(fs[i].1) &&
      forall j :: 0 <= j < i ==> fs[j].0 != k)
  {
    if fs != [] {
      LookupFindsFirst(fs[1..], k);
      assert Keys(fs) == [fs[0].0] + Keys(fs[1..]);
      if fs[0].0 == k {
        assert fs[0].0 == k && Lookup(fs, k) == Some(fs[0].1);
      } else if k in Keys(fs[1..]) {
        var i :| 0 <= i < |fs[1..]| && fs[1..][i].0 == k && Lookup(fs[1..], k) == Some(fs[1..][i].1) &&
          forall j :: 0 <= j < i ==> fs[1..][j].0 != k;
        FirstShift(fs, k, i);
      }
    }
  }

  lemma FirstShift(fs: Entries, k: string, i: nat)
    requires fs != [] && fs[0].0 != k && i < |fs| - 1
    requires forall j :: 0 <= j < i ==> fs[1..][j].0 != k
    ensures forall j :: 0 <= j < i + 1 ==> fs[j].0 != k
  {
    forall j | 0 < j < i + 1 ensures fs[j].0 != k {
      assert fs[j] == fs[1..][j - 1];
    }
  }


  /** In a dict, the entry at position `i` is the one `Lookup` returns for its key. */
  lemma {:induction false} LookupDistinct(fs: Entries, i: nat)
    requires DistinctKeys(fs) && i < |fs|
    ensures Lookup(fs, fs[i].0) == Some(fs[i].1)
  {
    if i > 0 {
      assert Keys(fs)[0] != Keys(fs)[i];
      assert Keys(fs[1..]) == Keys(fs)[1..];
      LookupDistinct(fs[1..], i - 1);
    }
  }

  /** `d[k] = v`: replace the value of an existing key in place, or append a new entry. */
  function Put(fs: Entries, k: string, v: Value): Entries {
    if fs == [] then [(k, v)]
    else if fs[0].0 == k then [(k, v)] + fs[1..]
    else [fs[0]] + Put(fs[1..], k, v)
  }

  /** After `d[k] = v`, `k` maps to `v` and every other key keeps its value. */
  lemma {:induction false} PutLookup(fs: Entries, k: string, v: Value, k': string)
    ensures Lookup(Put(fs, k, v), k') == if k' == k then Some(v) else Lookup(fs, k')
  {
    if fs != [] && fs[0].0 != k {
      PutLookup(fs[1..], k, v, k');
    }
  }

  /** `d[k] = v` keeps the key order, appending `k` only when it is new. */
  lemma {:induction false} PutKeys(fs: Entries, k: string, v: Value)
    ensures Keys(Put(fs, k, v)) == if k in Keys(fs) then Keys(fs) else Keys(fs) + [k]
  {
    if fs == [] {
    } else if fs[0].0 == k {
      assert Keys(Put(fs, k, v)) == [k] + Keys(fs[1..]);
    } else {
      PutKeys(fs[1..], k, v);
      assert Keys(fs) == [fs[0].0] + Keys(fs[1..]);
      assert Keys(Put(fs, k, v)) == [fs[0].0] + Keys(Put(fs[1..], k, v));
    }
  }

  /** `d[k] = v` keeps a dict's keys distinct. */
  lemma PutDistinct(fs: Entries, k: string, v: Value)
    requires DistinctKeys(fs)
    ensures DistinctKeys(Put(fs, k, v))
  {
    PutKeys(fs, k, v);
  }

  /** Adding a key that is not there yet appends one entry at the end. */
  lemma {:induction false} PutNew(fs: Entries, k: string, v: Value)
    requires k !in Keys(fs)
    ensures Put(fs, k, v) == fs + [(k, v)]
  {
    if fs != [] {
      assert Keys(fs) == [fs[0].0] + Keys(fs[1..]);
      PutNew(fs[1..], k, v);
      assert fs == [fs[0]] + fs[1..];
    }
  }

  /** `d.update(o)`, and the `{**d, **o}` of a dict display: `d[k] = o[k]` for each entry of `o` in order. */
  function PutAll(fs: Entries, os: Entries): Entries
    decreases |os|
  {
    if os == [] then fs else PutAll(Put(fs, os[0].0, os[0].1), os[1..])
  }

  /** The keys of `os` that `ks` lacks, in the order they first appear in `os`. */
  function Fresh(ks: seq<string>, os: seq<string>): seq<string>
    decreases |os|
  {
    if os == [] then []
    else if os[0] in ks then Fresh(ks, os[1..])
    else [os[0]] + Fresh(ks + [os[0]], os[1..])
  }

  /** A key is fresh exactly when `os` has it and `ks` does not; fresh keys are never repeated. */
  lemma {:induction false} FreshMembers(ks: seq<string>, os: seq<string>)
    ensures forall x :: x in Fresh(ks, os) <==> x in os && x !in ks
    ensures Distinct(Fresh(ks, os))
    ensures forall x :: x in Fresh(ks, os) ==> x !in ks
    decreases |os|
  {
    if os != [] {
      if os[0] in ks {
        FreshMembers(ks, os[1..]);
        assert os == [os[0]] + os[1..];
      } else {
        FreshMembers(ks + [os[0]], os[1..]);
        assert os == [os[0]] + os[1..];
        assert os[0] !in Fresh(ks + [os[0]], os[1..]);
      }
    }
  }

  /** An update keeps the old keys in order and then appends the new ones in `os` order. */
  lemma {:induction false} PutAllKeys(fs: Entries, os: Entries)
    ensures Keys(PutAll(fs, os)) == Keys(fs) + Fresh(Keys(fs), Keys(os))
    decreases |os|
  {
    if os != [] {
      var fs' := Put(fs, os[0].0, os[0].1);
      PutKeys(fs, os[0].0, os[0].1);
      PutAllKeys(fs', os[1..]);
      assert Keys(os) == [os[0].0] + Keys(os[1..]);
    }
  }

  /** After an update by a dict `os`, the keys of `os` take its values and the others keep theirs. */
  lemma {:induction false} PutAllLookup(fs: Entries, os: Entries, k: string)
    requires DistinctKeys(os)
    ensures Lookup(PutAll(fs, os), k) == if k in Keys(os) then Lookup(os, k) else Lookup(fs, k)
    decreases |os|
  {
    if os != [] {
      assert Keys(os) == [os[0].0] + Keys(os[1..]);
      assert DistinctKeys(os[1..]) by {
        assert Keys(os[1..]) == Keys(os)[1..];
      }
      PutAllLookup(Put(fs, os[0].0, os[0].1), os[1..], k);
      PutLookup(fs, os[0].0, os[0].1, k);
      if k in Keys(os[1..]) {
        assert os[0].0 != k by {
          var j :| 0 <= j < |Keys(os[1..])| && Keys(os[1..])[j] == k;
          assert Keys(os)[j + 1] == k;
        }
      }
    }
  }

  /** An update that only brings new keys appends them: `{**d}` of a dict is the same dict. */
  lemma {:induction false} PutAllDisjoint(fs: Entries, os: Entries)
    requires DistinctKeys(os)
    requires forall k :: k in Keys(os) ==> k !in Keys(fs)
    ensures PutAll(fs, os) == fs + os
    decreases |os|
  {
    if os != [] {
      var fs' := fs + [os[0]];
      assert Put(fs, os[0].0, os[0].1) == fs' by {
        assert os[0].0 == Keys(os)[0];
        PutNew(fs, os[0].0, os[0].1);
      }
      assert PutAll(fs', os[1..]) == fs' + os[1..] by {
        DisjointStep(fs, os);
        PutAllDisjoint(fs', os[1..]);
      }
      assert fs' + os[1..] == fs + os;
    }
  }

  /** Moving the first entry of `os` to the end of `fs` keeps the rest of `os` disjoint from it. */
  lemma DisjointStep(fs: Entries, os: Entries)
    requires os != [] && DistinctKeys(os)
    requires forall k :: k in Keys(os) ==> k !in Keys(fs)
    ensures DistinctKeys(os[1..])
    ensures forall k :: k in Keys(os[1..]) ==> k !in Keys(fs + [os[0]])
  {
    KeysAppend(fs, os[0]);
    TailDistinct(os);
    assert Keys(os) == [os[0].0] + Keys(os[1..]);
  }


  lemma KeysAppend(fs: Entries, e: (string, Value))
    ensures Keys(fs + [e]) == Keys(fs) + [e.0]
  {
  }

  lemma TailDistinct(os: Entries)
    requires os != [] && DistinctKeys(os)
    ensures DistinctKeys(os[1..]) && os[0].0 !in Keys(os[1..])
  {
    assert Keys(os[1..]) == Keys(os)[1..];
  }

  /** What `json.loads` can produce: every object, at any depth, has distinct keys. */
  predicate WellFormed(v: Value)
    decreases v
  {
    match v
    case Array(xs) => forall i :: 0 <= i < |xs| ==> WellFormed(xs[i])
    case Object(fs) => DistinctKeys(fs) && forall i :: 0 <= i < |fs| ==> WellFormed(fs[i].1)
    case _ => true
  }

  /** A fetch result that, when present, is a decoded document. */
  predicate WellFormedFetch(x: Option<Value>) {
    x.Some? ==> WellFormed(x.value)
  }

  /** Looking a key up in a well-formed object yields a well-formed value. */
  lemma WellFormedGet(fs: Entries, k: string, default: Value)
    requires WellFormed(Object(fs)) && WellFormed(default)
    ensures WellFormed(Get(fs, k, default))
  {
    LookupFindsFirst(fs, k);
  }

  /** `str(v)`: what an f-string prints for a JSON value. */
  function Show(v: Value): string {
    if v.Str? then v.s else Repr(v)
  }

  /** `repr(v)`, without the escaping of quotes and control characters inside strings. */
  function Repr(v: Value): string
    decreases v
  {
    match v
    case Null => "None"
    case Bool(b) => if b then "True" else "False"
    case Int(n) => Text.IntToString(n)
    case Str(s) => "'" + s + "'"
    case Array(xs) => "[" + Join(seq(|xs|, i requires 0 <= i < |xs| => Repr(xs[i]))) + "]"
    case Object(fs) => "{" + Join(seq(|fs|, i requires 0 <= i < |fs| => "'" + fs[i].0 + "': " + Repr(fs[i].1))) + "}"
  }

  /** The parts separated by ", ". */
  function Join(parts: seq<string>): string {
    if parts == [] then "" else if |parts| == 1 then parts[0] else parts[0] + ", " + Join(parts[1..])
  }
}
