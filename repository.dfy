/**
 * The post store (PostRepository, a Spring Data JPA repository keyed by the
 * post id) as far as the import uses it: `saveAll` and `save`, both upserts by
 * id. Whether a call throws is decided by the caller-supplied outcome, since
 * the database is not part of this model; a call that throws is taken to
 * leave the rows unchanged.
 */
module Repository {
  import opened Wrappers
  import opened PostModels

  /** The kind of exception a store call throws: Spring's DataAccessException, or any other. */
  datatype StoreFault = DataAccess | OtherFault

  /** The rows after upserting `ps` in list order: a later post with an id already present overwrites it. */
  function Upserted(rows: map<int, Post>, ps: seq<Post>): map<int, Post>
    decreases |ps|
  {
    if ps == [] then rows
    else Upserted(rows, ps[..|ps| - 1])[ps[|ps| - 1].id := ps[|ps| - 1]]
  }

  /** The rows after calling save on each post in turn, where call `i` throws exactly when `throws(i)`. */
  function SavedEach(rows: map<int, Post>, ps: seq<Post>, throws: nat -> bool): map<int, Post>
    decreases |ps|
  {
    if ps == [] then rows
    else
      var before := SavedEach(rows, ps[..|ps| - 1], throws);
      if throws(|ps| - 1) then before else before[ps[|ps| - 1].id := ps[|ps| - 1]]
  }

  /** The posts whose save call did not throw, in list order. */
  function Kept(ps: seq<Post>, throws: nat -> bool): (kept: seq<Post>)
    ensures |kept| <= |ps|
    decreases |ps|
  {
    if ps == [] then []
    else Kept(ps[..|ps| - 1], throws) + (if throws(|ps| - 1) then [] else [ps[|ps| - 1]])
  }

  /** The last post in `ps` with id `id`, if any. */
  function LastWithId(ps: seq<Post>, id: int): (p: Option<Post>)
    ensures p.Some? ==> p.value in ps && p.value.id == id
    ensures p.None? ==> forall i :: 0 <= i < |ps| ==> ps[i].id != id
    decreases |ps|
  {
    if ps == [] then None
    else if ps[|ps| - 1].id == id then Some(ps[|ps| - 1])
    else LastWithId(ps[..|ps| - 1], id)
  }

  function Lookup(rows: map<int, Post>, id: int): Option<Post> {
    if id in rows then Some(rows[id]) else None
  }

  /**
   * What an upsert leaves under each id: the last post in the list with that
   * id, or else what was there before.
   */
  lemma {:induction false} UpsertedAt(rows: map<int, Post>, ps: seq<Post>, id: int)
    ensures Lookup(Upserted(rows, ps), id) == if LastWithId(ps, id).Some? then LastWithId(ps, id) else Lookup(rows, id)
    decreases |ps|
  {
    if ps != [] {
      UpsertedAt(rows, ps[..|ps| - 1], id);
    }
  }

  /** Importing the same list twice leaves exactly the rows that importing it once leaves: one row per id. */
  lemma UpsertIdempotent(rows: map<int, Post>, ps: seq<Post>)
    ensures Upserted(Upserted(rows, ps), ps) == Upserted(rows, ps)
  {
    var once := Upserted(rows, ps);
    var twice := Upserted(once, ps);
    forall id ensures Lookup(twice, id) == Lookup(once, id) {
      UpsertedAt(once, ps, id);
      UpsertedAt(rows, ps, id);
    }
    assert twice.Keys == once.Keys by {
      forall id ensures id in twice <==> id in once {
        assert Lookup(twice, id) == Lookup(once, id);
      }
    }
    forall id | id in once ensures twice[id] == once[id] {
      assert Lookup(twice, id) == Lookup(once, id);
    }
  }

  /** Every post of the list is stored under its own id, and no other id changes. */
  lemma UpsertedContents(rows: map<int, Post>, ps: seq<Post>)
    ensures Upserted(rows, ps).Keys == rows.Keys + set p | p in ps :: p.id
    ensures forall id :: id in rows && (forall i :: 0 <= i < |ps| ==> ps[i].id != id)
                         ==> id in Upserted(rows, ps) && Upserted(rows, ps)[id] == rows[id]
  {
    var u := Upserted(rows, ps);
    forall id ensures id in u <==> id in rows || id in set p | p in ps :: p.id {
      UpsertedAt(rows, ps, id);
      if id in set p | p in ps :: p.id {
        var p :| p in ps && p.id == id;
        var i :| 0 <= i < |ps| && ps[i] == p;
        assert LastWithId(ps, id).Some?;
      }
    }
    forall id | id in rows && (forall i :: 0 <= i < |ps| ==> ps[i].id != id)
      ensures id in u && u[id] == rows[id]
    {
      UpsertedAt(rows, ps, id);
    }
  }

  /** Saving each post in turn leaves what one upsert of the posts whose call did not throw leaves. */
  lemma {:induction false} SavedEachIsUpsertOfKept(rows: map<int, Post>, ps: seq<Post>, throws: nat -> bool)
    ensures SavedEach(rows, ps, throws) == Upserted(rows, Kept(ps, throws))
    decreases |ps|
  {
    if ps != [] {
      var init := ps[..|ps| - 1];
      SavedEachIsUpsertOfKept(rows, init, throws);
      var k := Kept(init, throws);
      if !throws(|ps| - 1) {
        assert Kept(ps, throws) == k + [ps[|ps| - 1]];
        assert (k + [ps[|ps| - 1]])[..|k|] == k;
      } else {
        assert Kept(ps, throws) == k;
      }
    }
  }

  /** When no call throws, saving each post in turn is the same as one bulk upsert. */
  lemma {:induction false} SavedEachWithoutFaults(rows: map<int, Post>, ps: seq<Post>, throws: nat -> bool)
    requires forall i :: 0 <= i < |ps| ==> !throws(i)
    ensures SavedEach(rows, ps, throws) == Upserted(rows, ps)
    decreases |ps|
  {
    if ps != [] {
      SavedEachWithoutFaults(rows, ps[..|ps| - 1], throws);
    }
  }

  predicate DistinctIds(ps: seq<Post>) {
    forall i, j :: 0 <= i < j < |ps| ==> ps[i].id != ps[j].id
  }

  /**
   * A failing row does not stop the others: with distinct ids, every post
   * whose save did not throw is stored, and the id of a post whose save threw
   * keeps what it held before.
   */
  lemma {:induction false} SavedEachIsolatesFailures(rows: map<int, Post>, ps: seq<Post>, throws: nat -> bool, k: nat)
    requires DistinctIds(ps) && k < |ps|
    ensures !throws(k) ==> Lookup(SavedEach(rows, ps, throws), ps[k].id) == Some(ps[k])
    ensures throws(k) ==> Lookup(SavedEach(rows, ps, throws), ps[k].id) == Lookup(rows, ps[k].id)
    decreases |ps|
  {
    var n := |ps| - 1;
    var init := ps[..n];
    assert DistinctIds(init);
    if k < n {
      SavedEachIsolatesFailures(rows, init, throws, k);
      assert init[k] == ps[k];
      assert ps[n].id != ps[k].id;
    } else if throws(k) {
      SavedEachUntouched(rows, init, throws, ps[k].id);
    }
  }

  /** An id that no post in the list has keeps its row. */
  lemma {:induction false} SavedEachUntouched(rows: map<int, Post>, ps: seq<Post>, throws: nat -> bool, id: int)
    requires forall i :: 0 <= i < |ps| ==> ps[i].id != id
    ensures Lookup(SavedEach(rows, ps, throws), id) == Lookup(rows, id)
    decreases |ps|
  {
    if ps != [] {
      SavedEachUntouched(rows, ps[..|ps| - 1], throws, id);
    }
  }

  /**
   * The repository. `rows` is the posts table keyed by id; the ghost fields
   * record the calls made, in order, so that contracts can say which calls an
   * operation makes.
   */
  class PostRepository {
    var rows: map<int, Post>
    ghost var saveAllCalls: seq<seq<Post>>
    ghost var saveCalls: seq<Post>

    constructor (rows: map<int, Post>)
      ensures this.rows == rows && saveAllCalls == [] && saveCalls == []
    {
      this.rows := rows;
      saveAllCalls := [];
      saveCalls := [];
    }

    /** `saveAll(ps)`: upserts every post in list order, or throws `fault` and changes nothing. */
    method SaveAll(ps: seq<Post>, fault: Option<StoreFault>) returns (thrown: Option<StoreFault>)
      modifies this
      ensures thrown == fault
      ensures rows == if fault.None? then Upserted(old(rows), ps) else old(rows)
      ensures saveAllCalls == old(saveAllCalls) + [ps] && saveCalls == old(saveCalls)
    {
      saveAllCalls := saveAllCalls + [ps];
      if fault.None? {
        rows := Upserted(rows, ps);
      }
      thrown := fault;
    }

    /** `save(p)`: upserts one post, or throws and changes nothing. */
    method Save(p: Post, throws: bool) returns (saved: bool)
      modifies this
      ensures saved == !throws
      ensures rows == if throws then old(rows) else old(rows)[p.id := p]
      ensures saveCalls == old(saveCalls) + [p] && saveAllCalls == old(saveAllCalls)
    {
      saveCalls := saveCalls + [p];
      if !throws {
        rows := rows[p.id := p];
      }
      saved := !throws;
    }
  }
}
