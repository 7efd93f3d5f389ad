/** A MongoDB collection seen as the sequence of its documents in natural
    order, each reduced to the field the bot looks documents up by (`key`)
    and the field it reads back (`value`). `find_one`, `update_one` and
    `delete_one` act on the FIRST matching document; reading the whole
    collection into a Python dict lets a LATER document overwrite an earlier
    one with the same key. */
module KeyedDocs {
  import opened Wrappers

  datatype Doc<K, V> = Doc(key: K, value: V)

  predicate UniqueKeys<K(==), V>(docs: seq<Doc<K, V>>) {
    forall i, j :: 0 <= i < j < |docs| ==> docs[i].key != docs[j].key
  }

  /** The keys present in the collection. */
  function Keys<K(==), V>(docs: seq<Doc<K, V>>): set<K> {
    if docs == [] then {} else {docs[0].key} + Keys(docs[1..])
  }

  /** The number of documents with key `k`. */
  function Occurrences<K(==), V>(docs: seq<Doc<K, V>>, k: K): (n: nat)
    ensures n <= |docs|
    ensures n == 0 <==> k !in Keys(docs)
  {
    if docs == [] then 0 else (if docs[0].key == k then 1 else 0) + Occurrences(docs[1..], k)
  }

  lemma {:induction false} KeysHas<K, V>(docs: seq<Doc<K, V>>, i: nat)
    requires i < |docs|
    ensures docs[i].key in Keys(docs)
    decreases i
  {
    if i > 0 {
      KeysHas(docs[1..], i - 1);
    }
  }

  lemma {:induction false} KeysWitness<K, V>(docs: seq<Doc<K, V>>, k: K) returns (i: nat)
    requires k in Keys(docs)
    ensures i < |docs| && docs[i].key == k
    decreases |docs|
  {
    if docs[0].key == k {
      i := 0;
    } else {
      var j := KeysWitness(docs[1..], k);
      i := j + 1;
    }
  }

  lemma {:induction false} KeysAbsent<K, V>(docs: seq<Doc<K, V>>, k: K)
    requires forall j :: 0 <= j < |docs| ==> docs[j].key != k
    ensures k !in Keys(docs)
    decreases |docs|
  {
    if docs != [] {
      assert forall j :: 0 <= j < |docs[1..]| ==> docs[1..][j] == docs[j + 1];
      KeysAbsent(docs[1..], k);
    }
  }

  lemma {:induction false} KeysAppend<K, V>(a: seq<Doc<K, V>>, b: seq<Doc<K, V>>)
    ensures Keys(a + b) == Keys(a) + Keys(b)
    decreases |a|
  {
    if a == [] {
      assert a + b == b;
    } else {
      assert (a + b)[1..] == a[1..] + b;
      KeysAppend(a[1..], b);
    }
  }

  /** The position `find_one`, `update_one` and `delete_one` act on. */
  function FirstIndex<K(==), V>(docs: seq<Doc<K, V>>, k: K): (r: Option<nat>)
    ensures r.Some? ==> r.value < |docs| && docs[r.value].key == k
    ensures r.Some? ==> forall j :: 0 <= j < r.value ==> docs[j].key != k
    ensures r.None? <==> k !in Keys(docs)
  {
    if docs == [] then None
    else if docs[0].key == k then Some(0)
    else
      match FirstIndex(docs[1..], k)
      case None => None
      case Some(i) =>
        assert docs[i + 1] == docs[1..][i];
        Some(i + 1)
  }

  /** Reading the collection into a dict, first document to last: a later
      document overwrites an earlier one with the same key. */
  function Load<K(==), V>(docs: seq<Doc<K, V>>): (m: map<K, V>)
    ensures m.Keys == Keys(docs)
  {
    if docs == [] then map[] else map[docs[0].key := docs[0].value] + Load(docs[1..])
  }

  /** Every key maps to the value of the last document that carries it. */
  lemma {:induction false} LoadLast<K, V>(docs: seq<Doc<K, V>>, i: nat)
    requires i < |docs|
    requires forall j :: i < j < |docs| ==> docs[j].key != docs[i].key
    ensures docs[i].key in Load(docs) && Load(docs)[docs[i].key] == docs[i].value
    decreases i
  {
    KeysHas(docs, i);
    if i == 0 {
      assert forall j :: 0 <= j < |docs[1..]| ==> docs[1..][j] == docs[j + 1];
      KeysAbsent(docs[1..], docs[0].key);
    } else {
      var tail := docs[1..];
      assert forall j :: i - 1 < j < |tail| ==> tail[j] == docs[j + 1];
      LoadLast(tail, i - 1);
      KeysHas(tail, i - 1);
    }
  }

  /** Loading a concatenation is the right-biased union of the loads. */
  lemma {:induction false} LoadAppend<K, V>(a: seq<Doc<K, V>>, b: seq<Doc<K, V>>)
    ensures Load(a + b) == Load(a) + Load(b)
    decreases |a|
  {
    if a == [] {
      assert a + b == b;
    } else {
      assert (a + b)[1..] == a[1..] + b;
      LoadAppend(a[1..], b);
    }
  }

  /** With unique keys the collection holds one document per key, so
      counting documents counts keys. */
  lemma {:induction false} LoadSize<K, V>(docs: seq<Doc<K, V>>)
    requires UniqueKeys(docs)
    ensures |Load(docs)| == |docs|
    decreases |docs|
  {
    if docs != [] {
      var tail := docs[1..];
      assert UniqueKeys(tail) by {
        forall x, y | 0 <= x < y < |tail| ensures tail[x].key != tail[y].key {
          assert tail[x] == docs[x + 1] && tail[y] == docs[y + 1];
        }
      }
      LoadSize(tail);
      NotInTail(docs);
    }
  }

  /** Under unique keys the first document's key occurs nowhere else. */
  lemma NotInTail<K, V>(docs: seq<Doc<K, V>>)
    requires UniqueKeys(docs) && docs != []
    ensures docs[0].key !in Keys(docs[1..])
  {
    assert forall j :: 0 <= j < |docs[1..]| ==> docs[1..][j] == docs[j + 1];
    KeysAbsent(docs[1..], docs[0].key);
  }

  /** Under unique keys the key of `docs[i]` occurs neither before nor
      after position `i`. */
  lemma UniqueAround<K, V>(docs: seq<Doc<K, V>>, i: nat)
    requires UniqueKeys(docs) && i < |docs|
    ensures docs == docs[..i] + [docs[i]] + docs[i + 1..]
    ensures docs[i].key !in Keys(docs[..i]) && docs[i].key !in Keys(docs[i + 1..])
  {
    var c := docs[i + 1..];
    assert forall j :: 0 <= j < |c| ==> c[j] == docs[i + 1 + j];
    KeysAbsent(docs[..i], docs[i].key);
    KeysAbsent(docs[i + 1..], docs[i].key);
  }

  lemma LoadSingle<K, V>(d: Doc<K, V>)
    ensures Load([d]) == map[d.key := d.value]
  {
    assert [d][1..] == [];
  }

  /** `find_one({key: k})`: the value of the first document with key `k`;
      with unique keys, the value the load holds for `k`. */
  function FindOne<K(==), V>(docs: seq<Doc<K, V>>, k: K): (r: Option<V>)
    ensures r.None? <==> k !in Load(docs)
    ensures UniqueKeys(docs) && r.Some? ==> r.value == Load(docs)[k]
  {
    match FirstIndex(docs, k)
    case None => None
    case Some(i) =>
      assert UniqueKeys(docs) ==> Load(docs)[k] == docs[i].value by {
        if UniqueKeys(docs) { LoadLast(docs, i); }
      }
      Some(docs[i].value)
  }

  /** Under unique keys, giving the document at `i` a new value is a map
      update of its key. */
  lemma ReplaceAtLoad<K, V>(docs: seq<Doc<K, V>>, i: nat, v: V)
    requires UniqueKeys(docs) && i < |docs|
    ensures UniqueKeys(docs[i := Doc(docs[i].key, v)])
    ensures Load(docs[i := Doc(docs[i].key, v)]) == Load(docs)[docs[i].key := v]
  {
    var k := docs[i].key;
    var a := docs[..i];
    var c := docs[i + 1..];
    var r := docs[i := Doc(k, v)];
    UniqueAround(docs, i);
    assert r == a + [Doc(k, v)] + c;
    assert UniqueKeys(r) by {
      forall x, y | 0 <= x < y < |r| ensures r[x].key != r[y].key {
        assert r[x].key == docs[x].key && r[y].key == docs[y].key;
      }
    }
    LoadAppend(a + [docs[i]], c);
    LoadAppend(a, [docs[i]]);
    LoadAppend(a + [Doc(k, v)], c);
    LoadAppend(a, [Doc(k, v)]);
    LoadSingle(docs[i]);
    LoadSingle(Doc(k, v));
    UpdateThroughUnion(Load(a), Load(c), k, docs[i].value, v);
  }

  lemma UpdateThroughUnion<K, V>(a: map<K, V>, c: map<K, V>, k: K, v0: V, v: V)
    requires k !in c
    ensures (a + map[k := v]) + c == ((a + map[k := v0]) + c)[k := v]
  {
    var lhs := (a + map[k := v]) + c;
    var rhs := ((a + map[k := v0]) + c)[k := v];
    assert lhs.Keys == rhs.Keys;
    assert forall q :: q in lhs ==> lhs[q] == rhs[q];
  }

  lemma RemoveThroughUnion<K, V>(a: map<K, V>, c: map<K, V>, k: K, v0: V)
    requires k !in a && k !in c
    ensures a + c == ((a + map[k := v0]) + c) - {k}
  {
    var lhs := a + c;
    var rhs := ((a + map[k := v0]) + c) - {k};
    assert lhs.Keys == rhs.Keys;
    assert forall q :: q in lhs ==> lhs[q] == rhs[q];
  }

  /** `update_one({key: k}, {"$set": {value: v}}, upsert=True)`: the first
      document with key `k` gets value `v` in place, or a new document is
      appended when there is none. */
  function Upsert<K(==), V>(docs: seq<Doc<K, V>>, k: K, v: V): (r: seq<Doc<K, V>>)
    ensures |r| == if k in Keys(docs) then |docs| else |docs| + 1
    ensures UniqueKeys(docs) ==> UniqueKeys(r) && Load(r) == Load(docs)[k := v]
  {
    match FirstIndex(docs, k)
    case Some(i) =>
      var r := docs[i := Doc(k, v)];
      assert UniqueKeys(docs) ==> UniqueKeys(r) && Load(r) == Load(docs)[k := v] by {
        if UniqueKeys(docs) { ReplaceAtLoad(docs, i, v); }
      }
      r
    case None =>
      var r := docs + [Doc(k, v)];
      LoadAppend(docs, [Doc(k, v)]);
      LoadSingle(Doc(k, v));
      assert UniqueKeys(docs) ==> UniqueKeys(r) by {
        forall j | 0 <= j < |docs| ensures docs[j].key != k {
          KeysHas(docs, j);
        }
      }
      r
  }

  /** Under unique keys, removing the document at `i` removes its key from
      the load and nothing else. */
  lemma RemoveAtLoad<K, V>(docs: seq<Doc<K, V>>, i: nat)
    requires UniqueKeys(docs) && i < |docs|
    ensures UniqueKeys(docs[..i] + docs[i + 1..])
    ensures Load(docs[..i] + docs[i + 1..]) == Load(docs) - {docs[i].key}
  {
    var k := docs[i].key;
    var a := docs[..i];
    var c := docs[i + 1..];
    UniqueAround(docs, i);
    RemoveAtUnique(docs, i);
    LoadAppend(a + [docs[i]], c);
    LoadAppend(a, [docs[i]]);
    LoadAppend(a, c);
    LoadSingle(docs[i]);
    RemoveThroughUnion(Load(a), Load(c), k, docs[i].value);
  }

  /** Removing a document keeps the keys unique. */
  lemma RemoveAtUnique<K, V>(docs: seq<Doc<K, V>>, i: nat)
    requires UniqueKeys(docs) && i < |docs|
    ensures UniqueKeys(docs[..i] + docs[i + 1..])
  {
    var r := docs[..i] + docs[i + 1..];
    assert forall x :: 0 <= x < i ==> r[x] == docs[x];
    assert forall x :: i <= x < |r| ==> r[x] == docs[x + 1];
  }

  /** Removing the document at `i` lowers the count of its key by one. */
  lemma {:induction false} RemoveAtCount<K, V>(docs: seq<Doc<K, V>>, i: nat)
    requires i < |docs|
    ensures Occurrences(docs[..i] + docs[i + 1..], docs[i].key) == Occurrences(docs, docs[i].key) - 1
    decreases i
  {
    if i == 0 {
      assert docs[..0] + docs[1..] == docs[1..];
    } else {
      var tail := docs[1..];
      RemoveAtCount(tail, i - 1);
      assert tail[i - 1] == docs[i];
      assert (docs[..i] + docs[i + 1..])[1..] == tail[..i - 1] + tail[i..];
    }
  }

  /** `delete_one({key: k})`: the first document with key `k` is removed;
      nothing happens when there is none. */
  function DeleteOne<K(==), V>(docs: seq<Doc<K, V>>, k: K): (r: seq<Doc<K, V>>)
    ensures k !in Keys(docs) ==> r == docs
    ensures k in Keys(docs) ==> |r| == |docs| - 1
    ensures k in Keys(docs) ==>
      var i := FirstIndex(docs, k).value; r == docs[..i] + docs[i + 1..]
    ensures Occurrences(r, k) == if k in Keys(docs) then Occurrences(docs, k) - 1 else 0
    ensures UniqueKeys(docs) ==> UniqueKeys(r) && Load(r) == Load(docs) - {k}
  {
    match FirstIndex(docs, k)
    case None =>
      assert Load(docs) - {k} == Load(docs);
      docs
    case Some(i) =>
      var r := docs[..i] + docs[i + 1..];
      RemoveAtCount(docs, i);
      assert UniqueKeys(docs) ==> UniqueKeys(r) && Load(r) == Load(docs) - {k} by {
        if UniqueKeys(docs) { RemoveAtLoad(docs, i); }
      }
      r
  }

  /** `insert_one({key: k, value: v})`: always a new last document, so the
      load maps `k` to `v` whether or not `k` was present before. */
  function Append<K(==), V>(docs: seq<Doc<K, V>>, k: K, v: V): (r: seq<Doc<K, V>>)
    ensures |r| == |docs| + 1
    ensures Occurrences(r, k) == Occurrences(docs, k) + 1
    ensures Load(r) == Load(docs)[k := v]
  {
    var r := docs + [Doc(k, v)];
    LoadAppend(docs, [Doc(k, v)]);
    LoadSingle(Doc(k, v));
    AppendCount(docs, Doc(k, v));
    r
  }

  lemma {:induction false} AppendCount<K, V>(docs: seq<Doc<K, V>>, d: Doc<K, V>)
    ensures Occurrences(docs + [d], d.key) == Occurrences(docs, d.key) + 1
    decreases |docs|
  {
    if docs == [] {
      assert docs + [d] == [d];
      assert [d][1..] == [];
    } else {
      assert (docs + [d])[1..] == docs[1..] + [d];
      AppendCount(docs[1..], d);
    }
  }

  /** `update_one({key: from}, {"$set": {key: to}})`: the first document
      with key `from` gets key `to`; every value stays where it was. */
  function RenameFirst<K(==), V>(docs: seq<Doc<K, V>>, from: K, to: K): (r: seq<Doc<K, V>>)
    ensures |r| == |docs|
    ensures forall i :: 0 <= i < |docs| ==> r[i].value == docs[i].value
    ensures from !in Keys(docs) ==> r == docs
    ensures from in Keys(docs) ==>
      var i := FirstIndex(docs, from).value; r == docs[i := Doc(to, docs[i].value)]
  {
    match FirstIndex(docs, from)
    case None => docs
    case Some(i) => docs[i := Doc(to, docs[i].value)]
  }

  /** The first document with key `k` stays first when documents are added behind. */
  lemma FirstIndexExtend<K, V>(init: seq<Doc<K, V>>, last: Doc<K, V>, k: K)
    requires k in Keys(init)
    ensures FirstIndex(init + [last], k) == FirstIndex(init, k)
  {
    var docs := init + [last];
    var i := FirstIndex(init, k).value;
    assert docs[i] == init[i];
    KeysHas(docs, i);
    assert forall x :: 0 <= x < |init| ==> docs[x] == init[x];
  }

  /** A key new to `init` is first found at the document added behind it. */
  lemma FirstIndexNew<K, V>(init: seq<Doc<K, V>>, last: Doc<K, V>)
    requires forall j :: 0 <= j < |init| ==> init[j].key != last.key
    ensures FirstIndex(init + [last], last.key) == Some(|init|)
  {
    var docs := init + [last];
    KeysHas(docs, |init|);
    assert forall x :: 0 <= x < |init| ==> docs[x] == init[x];
  }

  /** The keys of the dict `Load` builds, in its iteration order: a Python
      dict keeps each key where it was first inserted, so the keys come in
      the order of their first documents. */
  function KeyOrder<K(==), V>(docs: seq<Doc<K, V>>): (ks: seq<K>)
    ensures forall i, j :: 0 <= i < j < |ks| ==> ks[i] != ks[j]
    ensures forall i :: 0 <= i < |ks| ==> ks[i] in Keys(docs)
    ensures forall i :: 0 <= i < |docs| ==> docs[i].key in ks
    ensures |ks| <= |docs|
    ensures forall i, j :: 0 <= i < j < |ks| ==> FirstIndex(docs, ks[i]).value < FirstIndex(docs, ks[j]).value
  {
    if docs == [] then []
    else
      var init := docs[..|docs| - 1];
      var last := docs[|docs| - 1];
      assert docs == init + [last];
      KeysAppend(init, [last]);
      assert Keys([last]) == {last.key};
      assert forall i :: 0 <= i < |init| ==> docs[i] == init[i];
      var rest := KeyOrder(init);
      assert forall i :: 0 <= i < |rest| ==> FirstIndex(docs, rest[i]) == FirstIndex(init, rest[i]) by {
        forall i | 0 <= i < |rest| ensures FirstIndex(docs, rest[i]) == FirstIndex(init, rest[i]) {
          FirstIndexExtend(init, last, rest[i]);
        }
      }
      if last.key in rest then rest
      else
        FirstIndexNew(init, last);
        rest + [last.key]
  }
}
