/** The global holder list `m_all_holders`: user data parked in an
    `ON_UserDataHolder` under a UUID, to be moved back onto an object later. */
module UserDataHolders {
  import opened Uuids
  import opened RhCmnUserData

  /** An `ON_UserDataHolder`; the user data it carries is not modelled. */
  class UserDataHolder {
    constructor ()
    {
    }
  }

  /** `CUserDataHolderPiece`. */
  datatype HolderPiece = HolderPiece(holder: UserDataHolder, id: Uuid)

  /** No two pieces share an id. */
  ghost predicate UniqueIds(s: seq<HolderPiece>)
  {
    forall i, j | 0 <= i < j < |s| :: s[i].id != s[j].id
  }

  /** No two pieces share a holder. */
  ghost predicate DistinctHolders(s: seq<HolderPiece>)
  {
    forall i, j | 0 <= i < j < |s| :: s[i].holder != s[j].holder
  }

  /** The holders the pieces point to. */
  ghost function HolderSet(s: seq<HolderPiece>): set<UserDataHolder>
  {
    set p | p in s :: p.holder
  }

  /** The pieces whose id differs from `id`, in their order. */
  function Without(s: seq<HolderPiece>, id: Uuid): (r: seq<HolderPiece>)
    ensures |r| <= |s|
  {
    if |s| == 0 then []
    else (if s[0].id == id then [] else [s[0]]) + Without(s[1..], id)
  }

  /** `Without` keeps exactly the pieces with another id. */
  lemma {:induction false} WithoutMembers(s: seq<HolderPiece>, id: Uuid)
    ensures forall p | p in Without(s, id) :: p in s && p.id != id
    ensures forall p | p in s && p.id != id :: p in Without(s, id)
  {
    if |s| > 0 {
      WithoutMembers(s[1..], id);
      assert s == [s[0]] + s[1..];
    }
  }

  /** The holders of the pieces with id `id`, in their order. */
  function HoldersWith(s: seq<HolderPiece>, id: Uuid): (r: seq<UserDataHolder>)
    ensures |r| <= |s|
  {
    if |s| == 0 then []
    else (if s[0].id == id then [s[0].holder] else []) + HoldersWith(s[1..], id)
  }

  /** `HoldersWith` lists exactly the holders of the pieces with that id. */
  lemma {:induction false} HoldersWithMembers(s: seq<HolderPiece>, id: Uuid)
    ensures forall h :: h in HoldersWith(s, id) <==> HolderPiece(h, id) in s
  {
    if |s| > 0 {
      HoldersWithMembers(s[1..], id);
      assert s == [s[0]] + s[1..];
    }
  }

  /** The pieces the removal loop of `ON_UserDataHolder_MoveUserDataTo`
      leaves, run exactly as written from index `i`: after removing the piece
      at `i` it still moves on to `i + 1`, so the piece that slid into `i` is
      never looked at. */
  function Sweep(s: seq<HolderPiece>, id: Uuid, i: nat): seq<HolderPiece>
    decreases |s| - i
  {
    if i >= |s| then s
    else if s[i].id == id then Sweep(s[..i] + s[i + 1..], id, i + 1)
    else Sweep(s, id, i + 1)
  }

  /** The holders that same loop hands the object, in order. */
  function Swept(s: seq<HolderPiece>, id: Uuid, i: nat): seq<UserDataHolder>
    decreases |s| - i
  {
    if i >= |s| then []
    else if s[i].id == id then [s[i].holder] + Swept(s[..i] + s[i + 1..], id, i + 1)
    else Swept(s, id, i + 1)
  }

  lemma {:induction false} WithoutAbsent(s: seq<HolderPiece>, id: Uuid)
    requires forall p | p in s :: p.id != id
    ensures Without(s, id) == s && HoldersWith(s, id) == []
  {
    if |s| > 0 {
      WithoutAbsent(s[1..], id);
    }
  }

  /** Past the last piece with that id the sweep changes nothing. */
  lemma {:induction false} SweepPast(s: seq<HolderPiece>, id: Uuid, i: nat)
    requires forall k | i <= k < |s| :: s[k].id != id
    ensures Sweep(s, id, i) == s && Swept(s, id, i) == []
    decreases |s| - i
  {
    if i < |s| {
      SweepPast(s, id, i + 1);
    }
  }

  /** With unique ids, no piece after `i` has the id of the piece at `i`,
      before or after that piece is removed. */
  lemma NoLaterMatch(s: seq<HolderPiece>, i: nat, t: seq<HolderPiece>)
    requires UniqueIds(s) && i < |s| && t == s[..i] + s[i + 1..]
    ensures forall p | p in s[i + 1..] :: p.id != s[i].id
    ensures forall k | i + 1 <= k < |t| :: t[k].id != s[i].id
  {
    forall k | i + 1 <= k < |s| ensures s[k].id != s[i].id {
    }
    forall k | i + 1 <= k < |t| ensures t[k].id != s[i].id {
      assert t[k] == s[k + 1];
    }
  }

  /** With unique ids the skipped piece never has the id being removed, so
      the sweep from `i` keeps the prefix and removes exactly the pieces
      with that id from the rest. */
  lemma {:induction false} SweepUnique(s: seq<HolderPiece>, id: Uuid, i: nat)
    requires UniqueIds(s) && i <= |s|
    ensures Sweep(s, id, i) == s[..i] + Without(s[i..], id)
    decreases |s| - i
  {
    if i == |s| {
      assert s[i..] == [];
    } else {
      var rest := s[i..];
      assert rest[0] == s[i] && rest[1..] == s[i + 1..];
      if s[i].id == id {
        var t := s[..i] + s[i + 1..];
        NoLaterMatch(s, i, t);
        SweepPast(t, id, i + 1);
        WithoutAbsent(s[i + 1..], id);
        assert Without(rest, id) == s[i + 1..];
      } else {
        SweepUnique(s, id, i + 1);
        assert Without(rest, id) == [s[i]] + Without(s[i + 1..], id);
        assert s[..i + 1] == s[..i] + [s[i]];
      }
    }
  }

  /** Likewise the holders handed over are those of the pieces with that id. */
  lemma {:induction false} SweptUnique(s: seq<HolderPiece>, id: Uuid, i: nat)
    requires UniqueIds(s) && i <= |s|
    ensures Swept(s, id, i) == HoldersWith(s[i..], id)
    decreases |s| - i
  {
    if i == |s| {
      assert s[i..] == [];
    } else {
      var rest := s[i..];
      assert rest[0] == s[i] && rest[1..] == s[i + 1..];
      if s[i].id == id {
        var t := s[..i] + s[i + 1..];
        NoLaterMatch(s, i, t);
        SweepPast(t, id, i + 1);
        WithoutAbsent(s[i + 1..], id);
        assert HoldersWith(rest, id) == [s[i].holder];
      } else {
        SweptUnique(s, id, i + 1);
        assert HoldersWith(rest, id) == HoldersWith(s[i + 1..], id);
      }
    }
  }

  /** The as-written loop on two adjacent pieces with the same id: it removes
      the first, skips the second and hands over one holder of two. */
  lemma SweepSkipsAdjacentDuplicate(h1: UserDataHolder, h2: UserDataHolder, id: Uuid)
    ensures Sweep([HolderPiece(h1, id), HolderPiece(h2, id)], id, 0) == [HolderPiece(h2, id)]
    ensures Swept([HolderPiece(h1, id), HolderPiece(h2, id)], id, 0) == [h1]
    ensures Without([HolderPiece(h1, id), HolderPiece(h2, id)], id) == []
    ensures HoldersWith([HolderPiece(h1, id), HolderPiece(h2, id)], id) == [h1, h2]
  {
    var s := [HolderPiece(h1, id), HolderPiece(h2, id)];
    assert s[..0] + s[1..] == [HolderPiece(h2, id)];
    assert s[1..] == [HolderPiece(h2, id)] && s[1..][1..] == [];
  }

  /** With unique ids at most one holder is handed over. */
  lemma {:induction false} HoldersWithUnique(s: seq<HolderPiece>, id: Uuid)
    requires UniqueIds(s)
    ensures |HoldersWith(s, id)| <= 1
  {
    if |s| > 0 {
      if s[0].id == id {
        assert forall p | p in s[1..] :: p.id != id by {
          forall k | 1 <= k < |s| ensures s[k].id != id {
            assert s[0].id != s[k].id;
          }
        }
        WithoutAbsent(s[1..], id);
      } else {
        HoldersWithUnique(s[1..], id);
      }
    }
  }

  /** Removing pieces keeps ids unique. */
  lemma {:induction false} WithoutKeepsUniqueIds(s: seq<HolderPiece>, id: Uuid)
    requires UniqueIds(s)
    ensures UniqueIds(Without(s, id))
  {
    if |s| > 0 {
      var tail := s[1..];
      WithoutKeepsUniqueIds(tail, id);
      WithoutMembers(tail, id);
      var r := Without(tail, id);
      if s[0].id != id {
        forall j | 0 <= j < |r| ensures s[0].id != r[j].id {
          var q := r[j];
          assert q in Without(tail, id);
          var k :| 0 <= k < |tail| && tail[k] == q;
          assert s[0].id != s[k + 1].id;
        }
      }
    }
  }

  /** Removing pieces keeps holders distinct. */
  lemma {:induction false} WithoutKeepsDistinctHolders(s: seq<HolderPiece>, id: Uuid)
    requires DistinctHolders(s)
    ensures DistinctHolders(Without(s, id))
  {
    if |s| > 0 {
      var tail := s[1..];
      WithoutKeepsDistinctHolders(tail, id);
      WithoutMembers(tail, id);
      var r := Without(tail, id);
      if s[0].id != id {
        forall j | 0 <= j < |r| ensures s[0].holder != r[j].holder {
          var q := r[j];
          assert q in Without(tail, id);
          var k :| 0 <= k < |tail| && tail[k] == q;
          assert s[0].holder != s[k + 1].holder;
        }
      }
    }
  }

  /** With distinct holders, the holders left after the removal are the
      original ones minus those handed over. */
  lemma HolderSetWithout(s: seq<HolderPiece>, id: Uuid)
    requires DistinctHolders(s)
    ensures HolderSet(Without(s, id)) == HolderSet(s) - set h | h in HoldersWith(s, id)
  {
    var w := Without(s, id);
    var gone := set h | h in HoldersWith(s, id);
    WithoutMembers(s, id);
    HoldersWithMembers(s, id);
    forall h | h in HolderSet(s) - gone
      ensures h in HolderSet(w)
    {
      var p :| p in s && p.holder == h;
      assert p.id != id by {
        assert p == HolderPiece(h, p.id);
      }
      assert p in w;
    }
    forall h | h in HolderSet(w)
      ensures h in HolderSet(s) && h !in gone
    {
      var p :| p in w && p.holder == h;
      assert p in s && p.id != id;
      var i :| 0 <= i < |s| && s[i] == p;
      forall j | 0 <= j < |s| && s[j].id == id ensures s[j].holder != h {
        assert s[if i < j then i else j].holder != s[if i < j then j else i].holder;
      }
    }
  }

  /** The intended ownership: the holders not yet deleted are exactly the
      ones listed. */
  ghost predicate Owned(s: seq<HolderPiece>, live: set<UserDataHolder>)
  {
    live == HolderSet(s)
  }

  /** Removing a listed id without deleting its holder breaks ownership:
      the holder stays allocated while nothing refers to it any more. */
  lemma RemovalWithoutDeleteLeaks(s: seq<HolderPiece>, live: set<UserDataHolder>, p: HolderPiece)
    requires Owned(s, live) && DistinctHolders(s) && p in s
    ensures p.holder in live && !Owned(Without(s, p.id), live)
  {
    HolderSetWithout(s, p.id);
    HoldersWithMembers(s, p.id);
    assert p.holder in HoldersWith(s, p.id);
  }

  class HolderList {
    /** `m_all_holders`, in order. */
    var pieces: seq<HolderPiece>
    /** Holders allocated by `MoveUserDataFrom` and not deleted since. */
    ghost var live: set<UserDataHolder>

    ghost predicate Valid()
      reads this
    {
      UniqueIds(pieces) && DistinctHolders(pieces) && HolderSet(pieces) <= live
    }

    ghost predicate Owns()
      reads this
    {
      Owned(pieces, live)
    }

    constructor ()
      ensures Valid() && Owns() && pieces == [] && live == {}
    {
      pieces := [];
      live := {};
    }

    /** `ON_UserDataHolder_MoveUserDataFrom`. `moveSucceeds` is the answer of
        the library's own `MoveUserDataFrom` into the new holder. It fails
        for a nil id, a null object, an object without user data, an id
        already held or a failed move (the new holder is then deleted); on
        success exactly one piece with that id and a new holder is
        appended. */
    method MoveUserDataFrom(id: Uuid, obj: OnObject?, moveSucceeds: bool) returns (rc: bool)
      requires Valid()
      modifies this
      ensures Valid()
      ensures old(Owns()) ==> Owns()
      ensures rc <==> (id != NilUuid && obj != null && |obj.userData| > 0 &&
        (forall p | p in old(pieces) :: p.id != id) && moveSucceeds)
      ensures !rc ==> pieces == old(pieces) && live == old(live)
      ensures rc ==> exists h: UserDataHolder ::
        fresh(h) && pieces == old(pieces) + [HolderPiece(h, id)] && live == old(live) + {h}
    {
      rc := false;
      if id != NilUuid && obj != null && |obj.userData| > 0 {
        var i := 0;
        while i < |pieces|
          invariant 0 <= i <= |pieces|
          invariant forall j | 0 <= j < i :: pieces[j].id != id
        {
          if pieces[i].id == id {
            return false;
          }
          i := i + 1;
        }
        var holder := new UserDataHolder();
        if !moveSucceeds {
          return false;
        }
        assert holder !in HolderSet(pieces);
        assert HolderSet(pieces + [HolderPiece(holder, id)]) == HolderSet(pieces) + {holder} by {
          forall p | p in pieces + [HolderPiece(holder, id)] ensures p in pieces || p == HolderPiece(holder, id) {
          }
        }
        ghost var added := pieces + [HolderPiece(holder, id)];
        assert DistinctHolders(added) by {
          forall i, j | 0 <= i < j < |added| ensures added[i].holder != added[j].holder {
            if j == |pieces| {
              assert added[i] in pieces;
            }
          }
        }
        pieces := pieces + [HolderPiece(holder, id)];
        live := live + {holder};
        rc := true;
      }
    }

    /** `ON_UserDataHolder_MoveUserDataTo`: nothing happens for a nil id or
        a null object; otherwise the loop runs as written (`Sweep`,
        `Swept`), which with unique ids removes the piece with that id,
        keeps the rest in order and hands at most one holder to the object.
        The removed holder is not deleted. */
    method MoveUserDataTo(id: Uuid, obj: OnObject?, append: bool) returns (moved: seq<UserDataHolder>)
      requires Valid()
      modifies this`pieces
      ensures Valid()
      ensures id == NilUuid || obj == null ==> pieces == old(pieces) && moved == []
      ensures id != NilUuid && obj != null ==>
        pieces == Sweep(old(pieces), id, 0) && moved == Swept(old(pieces), id, 0)
      ensures id != NilUuid && obj != null ==>
        pieces == Without(old(pieces), id) && moved == HoldersWith(old(pieces), id)
      ensures |moved| <= 1
    {
      moved := [];
      if id != NilUuid && obj != null {
        moved := SweepHolders(id);
      }
    }

    /** `MoveUserDataTo` with the removed holder deleted after its data has
        moved, which keeps the listed holders and the live ones equal. */
    method MoveUserDataToReleasing(id: Uuid, obj: OnObject?, append: bool) returns (moved: seq<UserDataHolder>)
      requires Valid()
      modifies this
      ensures Valid()
      ensures old(Owns()) ==> Owns()
      ensures id == NilUuid || obj == null ==> pieces == old(pieces) && live == old(live) && moved == []
      ensures id != NilUuid && obj != null ==>
        pieces == Without(old(pieces), id) && moved == HoldersWith(old(pieces), id) &&
        live == old(live) - set h | h in moved
      ensures |moved| <= 1
    {
      moved := [];
      if id != NilUuid && obj != null {
        moved := SweepHolders(id);
        HolderSetWithout(old(pieces), id);
        assert (set h | h in moved) == set h | h in HoldersWith(old(pieces), id);
        live := live - set h | h in moved;
      }
    }

    /** The loop shared by both: remove, then step past the next index. */
    method SweepHolders(id: Uuid) returns (moved: seq<UserDataHolder>)
      requires Valid()
      modifies this`pieces
      ensures Valid()
      ensures pieces == Sweep(old(pieces), id, 0) && moved == Swept(old(pieces), id, 0)
      ensures pieces == Without(old(pieces), id) && moved == HoldersWith(old(pieces), id)
      ensures |moved| <= 1
    {
      ghost var original := pieces;
      moved := [];
      var i := 0;
      while i < |pieces|
        invariant 0 <= i
        invariant Sweep(pieces, id, i) == Sweep(original, id, 0)
        invariant moved + Swept(pieces, id, i) == Swept(original, id, 0)
      {
        if pieces[i].id == id {
          var holder := pieces[i].holder;
          assert moved + Swept(pieces, id, i) == (moved + [holder]) + Swept(pieces[..i] + pieces[i + 1..], id, i + 1);
          pieces := pieces[..i] + pieces[i + 1..];
          moved := moved + [holder];
        }
        i := i + 1;
      }
      SweepUnique(original, id, 0);
      SweptUnique(original, id, 0);
      assert original[..0] == [] && original[0..] == original;
      WithoutKeepsUniqueIds(original, id);
      WithoutKeepsDistinctHolders(original, id);
      WithoutMembers(original, id);
      HoldersWithUnique(original, id);
    }
  }
}
