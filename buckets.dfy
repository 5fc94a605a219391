/**
 * A bucket of the unit of work: a PHP array keyed by entity identity.
 *
 * A PHP array keeps its keys in insertion order, never holds a key twice,
 * overwrites an existing key in place and appends a new key at the end;
 * `unset` drops a key and keeps the others in order. A bucket is therefore
 * the sequence of its entries, in key-insertion order, with unique keys.
 */
module Buckets {

  /** The identity of a tracked entity (the object hash the source keys by). */
  type Id(==)

  /** An opaque persistable record (an active record object). */
  type Record(==, !new)

  /** One slot of a bucket: the identity and the record tracked under it. */
  datatype Entry = Entry(id: Id, rec: Record)

  predicate UniqueKeys(s: seq<Entry>)
  {
    forall i, j :: 0 <= i < j < |s| ==> s[i].id != s[j].id
  }

  type Bucket = s: seq<Entry> | UniqueKeys(s) witness []

  function Keys(b: seq<Entry>): set<Id>
  {
    set i | 0 <= i < |b| :: b[i].id
  }

  /** The position of `id` in `b`: the first, and in a bucket the only, slot holding it. */
  function IndexOf(b: seq<Entry>, id: Id): (i: nat)
    requires id in Keys(b)
    ensures i < |b| && b[i].id == id
    ensures forall j :: 0 <= j < i ==> b[j].id != id
  {
    if b[0].id == id then 0
    else
      assert id in Keys(b[1..]) by {
        var k :| 0 <= k < |b| && b[k].id == id;
        assert b[1..][k - 1].id == id;
      }
      1 + IndexOf(b[1..], id)
  }

  /** The record stored under `id`. */
  function Lookup(b: Bucket, id: Id): (r: Record)
    requires id in Keys(b)
    ensures Entry(id, r) in b
  {
    b[IndexOf(b, id)].rec
  }

  /** In a bucket, the entry at slot `i` is the one found under its key. */
  lemma IndexOfAt(b: Bucket, i: nat)
    requires i < |b|
    ensures b[i].id in Keys(b) && IndexOf(b, b[i].id) == i
  {
  }

  /** An identity and a record form an entry of a bucket exactly when the record is stored under it. */
  lemma MemberIffLookup(b: Bucket, id: Id, r: Record)
    ensures Entry(id, r) in b <==> id in Keys(b) && Lookup(b, id) == r
  {
    if Entry(id, r) in b {
      var i :| 0 <= i < |b| && b[i] == Entry(id, r);
      IndexOfAt(b, i);
    }
  }

  /** `$bucket[$id] = $r`: overwrite in place when the key exists, otherwise append. */
  function Put(b: Bucket, id: Id, r: Record): (b': Bucket)
    ensures Keys(b') == Keys(b) + {id}
    ensures Entry(id, r) in b'
    ensures id !in Keys(b) ==> b' == b + [Entry(id, r)]
    ensures id in Keys(b) ==> |b'| == |b| && b'[IndexOf(b, id)] == Entry(id, r)
    ensures id in Keys(b) ==> forall j :: 0 <= j < |b| && j != IndexOf(b, id) ==> b'[j] == b[j]
    ensures forall e :: e in b && e.id != id ==> e in b'
    ensures forall e :: e in b' && e.id != id ==> e in b
  {
    if id in Keys(b) then
      var i := IndexOf(b, id);
      var b' := b[i := Entry(id, r)];
      assert Keys(b') == Keys(b) by {
        forall k | k in Keys(b) ensures k in Keys(b') {
          var j :| 0 <= j < |b| && b[j].id == k;
          assert b'[j].id == k;
        }
      }
      assert forall e :: e in b && e.id != id ==> e in b' by {
        forall e | e in b && e.id != id ensures e in b' {
          var j :| 0 <= j < |b| && b[j] == e;
          assert b'[j] == e;
        }
      }
      b'
    else
      var b' := b + [Entry(id, r)];
      assert Keys(b') == Keys(b) + {id} by {
        assert b'[|b|].id == id;
        forall k | k in Keys(b) ensures k in Keys(b') {
          var j :| 0 <= j < |b| && b[j].id == k;
          assert b'[j].id == k;
        }
      }
      b'
  }

  /** `unset($bucket[$id])`: drop the key, keep every other entry in its order. */
  function Remove(b: Bucket, id: Id): (b': Bucket)
    ensures Keys(b') == Keys(b) - {id}
    ensures id !in Keys(b) ==> b' == b
    ensures id in Keys(b) ==>
              && |b'| == |b| - 1
              && forall j :: 0 <= j < |b'| ==> b'[j] == (if j < IndexOf(b, id) then b[j] else b[j + 1])
    ensures forall e :: e in b && e.id != id ==> e in b'
    ensures forall e :: e in b' ==> e in b && e.id != id
  {
    if id in Keys(b) then
      var i := IndexOf(b, id);
      var b' := b[..i] + b[i + 1..];
      assert forall j :: 0 <= j < |b'| ==> b'[j] == (if j < i then b[j] else b[j + 1]);
      assert Keys(b') == Keys(b) - {id} by {
        forall k | k in Keys(b) - {id} ensures k in Keys(b') {
          var j :| 0 <= j < |b| && b[j].id == k;
          assert b'[if j < i then j else j - 1].id == k;
        }
      }
      b'
    else
      b
  }

  /** Removing the entry that was just appended gives back the bucket as it was. */
  lemma RemoveAppended(b: Bucket, id: Id, r: Record)
    requires id !in Keys(b)
    ensures UniqueKeys(b + [Entry(id, r)])
    ensures Remove(b + [Entry(id, r)], id) == b
  {
    var b' := b + [Entry(id, r)];
    assert b'[|b|].id == id;
    assert forall j :: 0 <= j < |b| ==> b'[j].id != id by {
      forall j | 0 <= j < |b| ensures b'[j].id != id {
        assert b[j].id in Keys(b);
      }
    }
    IndexOfAt(b', |b|);
    assert b'[..|b|] == b;
  }
}
