/** The generic store every entity service is built on: a collection of
    records addressed by id, in the backend's storage order. The REST
    transport behind it is not modelled; its primitives are. */
module Repository {
  import opened Common
  import opened Sequences

  /** A collection: the record under each id, and the order in which a
      whole-collection fetch returns them. */
  datatype Table<T> = Table(rows: map<Id, T>, order: seq<Id>)

  /** `order` lists every stored id exactly once. */
  ghost predicate Valid<T>(t: Table<T>)
  {
    && (forall i | 0 <= i < |t.order| :: t.order[i] in t.rows)
    && (forall i, j | 0 <= i < j < |t.order| :: t.order[i] != t.order[j])
    && (forall k | k in t.rows :: k in t.order)
  }

  function Empty<T>(): (t: Table<T>)
    ensures Valid(t) && t.rows == map[]
  {
    Table(map[], [])
  }

  /** getAll(): every stored record, in storage order. */
  function All<T>(t: Table<T>): (r: seq<T>)
    requires Valid(t)
    ensures |r| == |t.order|
    ensures forall k | k in t.rows :: t.rows[k] in r
    ensures forall i | 0 <= i < |r| :: t.order[i] in t.rows && r[i] == t.rows[t.order[i]]
  {
    var r := seq(|t.order|, i requires 0 <= i < |t.order| => t.rows[t.order[i]]);
    assert forall k | k in t.rows :: t.rows[k] in r by {
      forall k | k in t.rows ensures t.rows[k] in r {
        var i :| 0 <= i < |t.order| && t.order[i] == k;
        assert r[i] == t.rows[k];
      }
    }
    r
  }

  /** get(id): the record stored under `id`, or empty. */
  function Get<T>(t: Table<T>, id: Id): (r: Option<T>)
    ensures r.Some? <==> id in t.rows
    ensures r.Some? ==> r.value == t.rows[id]
  {
    if id in t.rows then Some(t.rows[id]) else None
  }

  /** create(entity) under the identity `id` the backend assigns. */
  function Insert<T>(t: Table<T>, id: Id, v: T): (r: Table<T>)
    requires Valid(t) && id !in t.rows
    ensures Valid(r)
    ensures r.rows == t.rows[id := v]
    ensures All(r) == All(t) + [v]
  {
    var r := Table(t.rows[id := v], t.order + [id]);
    InsertValid(t, id, v);
    assert forall i | 0 <= i < |t.order| :: All(r)[i] == All(t)[i];
    r
  }

  lemma InsertValid<T>(t: Table<T>, id: Id, v: T)
    requires Valid(t) && id !in t.rows
    ensures Valid(Table(t.rows[id := v], t.order + [id]))
  {
    var rows, order := t.rows[id := v], t.order + [id];
    assert forall i | 0 <= i < |t.order| :: order[i] == t.order[i] && t.order[i] != id;
    assert forall i, j | 0 <= i < j < |order| :: order[i] != order[j] by {
      forall i, j | 0 <= i < j < |order| ensures order[i] != order[j] {
        if j < |t.order| {
          assert t.order[i] != t.order[j];
        }
      }
    }
    assert forall k | k in rows :: k in order by {
      forall k | k in rows ensures k in order {
        if k != id {
          assert k in t.rows;
          var i :| 0 <= i < |t.order| && t.order[i] == k;
          assert order[i] == k;
        } else {
          assert order[|t.order|] == k;
        }
      }
    }
  }

  /** update(id, entity): replaces the whole record, keeps its place in storage order. */
  function Replace<T>(t: Table<T>, id: Id, v: T): (r: Table<T>)
    requires Valid(t) && id in t.rows
    ensures Valid(r)
    ensures r.rows == t.rows[id := v] && r.rows.Keys == t.rows.Keys && r.order == t.order
    ensures forall i | 0 <= i < |t.order| :: All(r)[i] == if t.order[i] == id then v else All(t)[i]
  {
    var r := Table(t.rows[id := v], t.order);
    assert r.rows.Keys == t.rows.Keys;
    r
  }

  /** The round trip of create: the new record is what get returns for its id,
      and every other id still yields what it did. */
  lemma GetAfterInsert<T>(t: Table<T>, id: Id, v: T, other: Id)
    requires Valid(t) && id !in t.rows
    ensures Get(Insert(t, id, v), id) == Some(v)
    ensures other != id ==> Get(Insert(t, id, v), other) == Get(t, other)
  {
  }

  /** Last write wins: after update(id, e), get(id) returns e; other ids are untouched. */
  lemma GetAfterReplace<T>(t: Table<T>, id: Id, v: T, other: Id)
    requires Valid(t) && id in t.rows
    ensures Get(Replace(t, id, v), id) == Some(v)
    ensures other != id ==> Get(Replace(t, id, v), other) == Get(t, other)
  {
  }

  /** findBy: exactly the stored records that satisfy `p`, in storage order. */
  function FindBy<T(!new)>(t: Table<T>, p: T -> bool): (r: seq<T>)
    requires Valid(t)
    ensures forall x :: x in r <==> x in All(t) && p(x)
  {
    Filter(All(t), p)
  }

  /** findOneBy: the first stored record that satisfies `p`, or empty. */
  function FindOneBy<T(!new,==)>(t: Table<T>, p: T -> bool): (r: Option<T>)
    requires Valid(t)
    ensures r.Some? ==> r.value in All(t) && p(r.value)
  {
    FindFirst(All(t), p)
  }

  /** existsBy: some stored record satisfies `p`. */
  predicate ExistsBy<T(!new)>(t: Table<T>, p: T -> bool)
    requires Valid(t)
  {
    FindBy(t, p) != []
  }

  /** When existsBy fails, no stored record satisfies `p`. */
  lemma NotFoundNowhere<T(!new)>(t: Table<T>, p: T -> bool)
    requires Valid(t) && !ExistsBy(t, p)
    ensures forall k | k in t.rows :: !p(t.rows[k])
  {
    forall k | k in t.rows ensures !p(t.rows[k]) {
      assert t.rows[k] in All(t);
    }
  }

  /** existsBy and findOneBy agree: a match exists exactly when findOneBy finds one. */
  lemma ExistsIffFound<T(!new)>(t: Table<T>, p: T -> bool)
    requires Valid(t)
    ensures ExistsBy(t, p) <==> FindOneBy(t, p).Some?
  {
    FindFirstIsHeadOfFilter(All(t), p);
  }

  /** filterAndOrder / getAllOrdered: the records satisfying `p`, ordered by `le`. */
  function FilterAndOrder<T(!new)>(t: Table<T>, p: T -> bool, le: (T, T) -> bool): (r: seq<T>)
    requires Valid(t) && TotalPreorder(le)
    ensures SortedBy(r, le)
    ensures multiset(r) == multiset(FindBy(t, p))
  {
    SortBy(FindBy(t, p), le)
  }
}
