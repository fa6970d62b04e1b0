/** aomdv_rt_entry as an object: its path list operations, and what the handlers of aomdv.cc do to
    one entry. The list is a sequence in list order. */
module AomdvEntry {
  import opened Common
  import opened M = AomdvModel

  lemma {:induction false} DeleteAt(ps: seq<Path>, id: Addr, i: nat)
    requires i < |ps| && ps[i].nexthop == id && forall k :: 0 <= k < i ==> ps[k].nexthop != id
    ensures DeleteFirst(ps, id) == ps[..i] + ps[i + 1..]
  {
    if i > 0 {
      DeleteAt(ps[1..], id, i - 1);
    }
  }

  lemma {:induction false} DeleteNone(ps: seq<Path>, id: Addr)
    requires !HasNextHop(ps, id)
    ensures DeleteFirst(ps, id) == ps
  {
    if ps != [] {
      assert ps[0].nexthop != id;
      assert !HasNextHop(ps[1..], id) by {
        assert forall i :: 0 <= i < |ps[1..]| ==> ps[1..][i] == ps[i + 1];
      }
      DeleteNone(ps[1..], id);
    }
  }

  lemma {:induction false} UnexpiredSkips(ps: seq<Path>, now: real, i: nat)
    requires i < |ps| && ps[i].expire < now
    ensures Unexpired(ps[..i] + ps[i + 1..], now) == Unexpired(ps, now)
  {
    var rest := ps[..i] + ps[i + 1..];
    if i == 0 {
      assert rest == ps[1..];
    } else {
      assert rest[0] == ps[0] && rest[1..] == ps[1..][..i - 1] + ps[1..][i..];
      UnexpiredSkips(ps[1..], now, i - 1);
    }
  }

  lemma {:induction false} UnexpiredAll(ps: seq<Path>, now: real)
    requires forall i :: 0 <= i < |ps| ==> !(ps[i].expire < now)
    ensures Unexpired(ps, now) == ps
  {
    if ps != [] {
      UnexpiredAll(ps[1..], now);
    }
  }

  class RtEntry {
    var seqno: nat
    var paths: seq<Path>
    var numPaths: int
    var flag: Flag
    var highest: nat

    ghost function State(): Entry
      reads this
    {
      Entry(seqno, paths, numPaths, flag, highest)
    }

    constructor ()
      ensures State() == FRESH_ENTRY
    {
      seqno, paths, numPaths, flag, highest := 0, [], 0, Down, 0;
    }

    method PathInsert(p: Path)
      modifies this`paths, this`numPaths
      ensures paths == old(paths) + [p] && numPaths == old(numPaths) + 1
    {
      paths := paths + [p];
      numPaths := numPaths + 1;
    }

    method PathLookup(id: Addr) returns (found: bool)
      ensures found == HasNextHop(paths, id)
    {
      var i := 0;
      while i < |paths|
        invariant 0 <= i <= |paths|
        invariant forall k :: 0 <= k < i ==> paths[k].nexthop != id
      {
        if paths[i].nexthop == id {
          return true;
        }
        i := i + 1;
      }
      return false;
    }

    method DisjointPathLookup(nexthop: Addr, lasthop: Addr) returns (i: nat)
      ensures i == FindPath(paths, nexthop, lasthop)
    {
      i := 0;
      while i < |paths|
        invariant 0 <= i <= |paths|
        invariant forall k :: 0 <= k < i ==> paths[k].nexthop != nexthop || paths[k].lasthop != lasthop
      {
        if paths[i].nexthop == nexthop && paths[i].lasthop == lasthop {
          return;
        }
        i := i + 1;
      }
    }

    method NewDisjointPath(nexthop: Addr, lasthop: Addr) returns (ok: bool)
      ensures ok == NewDisjoint(paths, nexthop, lasthop)
    {
      var i := 0;
      while i < |paths|
        invariant 0 <= i <= |paths|
        invariant NewDisjoint(paths[..i], nexthop, lasthop)
      {
        if paths[i].nexthop == nexthop || paths[i].lasthop == lasthop {
          return false;
        }
        assert paths[..i + 1] == paths[..i] + [paths[i]];
        i := i + 1;
      }
      assert paths[..i] == paths;
      return true;
    }

    method GetMinHopcount() returns (m: nat)
      ensures m == MinHops(paths)
    {
      m := INFINITY2;
      var i := 0;
      while i < |paths|
        invariant 0 <= i <= |paths|
        invariant m == MinHops(paths[..i])
      {
        assert paths[..i + 1][..i] == paths[..i];
        if paths[i].hopcount < m {
          m := paths[i].hopcount;
        }
        i := i + 1;
      }
      assert paths[..i] == paths;
    }

    method PathDelete(id: Addr)
      modifies this`paths, this`numPaths
      ensures State() == DropPath(old(State()), id)
    {
      var i := 0;
      while i < |paths|
        invariant 0 <= i <= |paths| && paths == old(paths) && numPaths == old(numPaths)
        invariant forall k :: 0 <= k < i ==> paths[k].nexthop != id
      {
        if paths[i].nexthop == id {
          DeleteAt(paths, id, i);
          paths := paths[..i] + paths[i + 1..];
          numPaths := numPaths - 1;
          return;
        }
        i := i + 1;
      }
      DeleteNone(paths, id);
    }

    method PathDeleteAll()
      modifies this`paths, this`numPaths
      ensures paths == [] && numPaths == 0
    {
      while paths != []
        decreases |paths|
      {
        paths := paths[1..];
      }
      numPaths := 0;
    }

    /** path_purge restarts its scan after every removal. */
    method PathPurge(now: real)
      modifies this`paths, this`numPaths
      ensures paths == Unexpired(old(paths), now)
      ensures numPaths == old(numPaths) - (|old(paths)| - |paths|)
    {
      var cond := true;
      while cond
        invariant Unexpired(paths, now) == Unexpired(old(paths), now)
        invariant numPaths == old(numPaths) - (|old(paths)| - |paths|)
        invariant !cond ==> forall i :: 0 <= i < |paths| ==> !(paths[i].expire < now)
        decreases |paths|, cond
      {
        cond := false;
        var i := 0;
        while i < |paths| && !(paths[i].expire < now)
          invariant 0 <= i <= |paths|
          invariant forall k :: 0 <= k < i ==> !(paths[k].expire < now)
        {
          i := i + 1;
        }
        if i < |paths| {
          cond := true;
          UnexpiredSkips(paths, now, i);
          paths := paths[..i] + paths[i + 1..];
          numPaths := numPaths - 1;
        }
      }
      UnexpiredAll(paths, now);
    }

    /** path_empty with its asserts. */
    method PathEmpty() returns (empty: bool)
      requires numPaths == |paths|
      ensures empty == (paths == [])
    {
      if paths != [] {
        assert numPaths > 0;
        return false;
      } else {
        assert numPaths == 0;
        return true;
      }
    }

    method RtDown()
      modifies this
      ensures State() == M.RtDown(old(State()))
    {
      if flag.Down? {
        return;
      }
      flag := Down;
      PathDeleteAll();
    }

    /** The path update of recvRequest and recvReply. */
    method Learn(cfg: Config, seq': nat, p: Path, closer: bool)
      requires EntryInv(cfg, State()) && seq' % 2 == 0 && seq' > 0
      modifies this
      ensures State() == M.Learn(cfg, old(State()), seq', p, closer)
      ensures EntryInv(cfg, State())
    {
      LearnKeeps(cfg, State(), seq', p, closer);
      if seqno < seq' {
        seqno := seq';
        PathDeleteAll();
        flag := Up;
        PathInsert(p);
      } else if seqno == seq' && closer {
        assert flag.Up?;
        var k := DisjointPathLookup(p.nexthop, p.lasthop);
        if k < |paths| {
          var q := paths[k];
          paths := paths[k := q.(expire := if q.expire < p.expire then p.expire else q.expire)];
        } else {
          var isNew := NewDisjointPath(p.nexthop, p.lasthop);
          if isNew {
            var m := GetMinHopcount();
            if numPaths < cfg.maxPaths && p.hopcount - m <= cfg.lenDiff {
              PathInsert(p);
            }
          }
        }
      }
    }

    /** One iteration of handle_link_failure. */
    method LoseLink(ghost cfg: Config, id: Addr)
      requires EntryInv(cfg, State())
      modifies this
      ensures State() == M.LoseLink(old(State()), id)
      ensures EntryInv(cfg, State())
    {
      LoseLinkKeeps(cfg, State(), id);
      DeleteRemovesAll(paths, id);
      var found := PathLookup(id);
      if flag.Up? && found {
        assert seqno % 2 == 0;
        PathDelete(id);
        var empty := PathEmpty();
        if empty {
          seqno := seqno + 1;
          seqno := Max(seqno, highest);
          RtDown();
        }
      }
    }

    /** One iteration of recvError. */
    method HearError(ghost cfg: Config, from: Addr, seq': nat)
      requires EntryInv(cfg, State()) && (seq' % 2 == 1 || seq' == 0)
      modifies this
      ensures State() == M.HearError(old(State()), from, seq')
      ensures EntryInv(cfg, State())
    {
      HearErrorKeeps(cfg, State(), from, seq');
      DeleteRemovesAll(paths, from);
      var found := PathLookup(from);
      if flag.Up? && found && seqno <= seq' {
        assert seqno % 2 == 0;
        PathDelete(from);
        highest := Max(highest, seq');
        var empty := PathEmpty();
        if empty {
          seqno := highest;
          RtDown();
        }
      }
    }

    /** One iteration of rt_purge. */
    method Purge(ghost cfg: Config, now: real)
      requires EntryInv(cfg, State())
      modifies this
      ensures State() == M.Purge(old(State()), now)
      ensures EntryInv(cfg, State())
    {
      PurgeKeeps(cfg, State(), now);
      if flag.Up? && 0.0 < now {
        PathPurge(now);
        var empty := PathEmpty();
        if empty {
          seqno := seqno + 1;
          seqno := Max(seqno, highest);
          if seqno % 2 == 0 {
            seqno := seqno + 1;
          }
          RtDown();
        }
      }
    }

    /** forward: path_find on a valid route is never null, and the path it yields is kept alive. */
    method Forward(ghost cfg: Config, expire: real) returns (nexthop: Addr)
      requires EntryInv(cfg, State()) && flag.Up?
      modifies this`paths
      ensures State() == UseRoute(old(State()), expire)
      ensures EntryInv(cfg, State()) && HasNextHop(paths, nexthop)
    {
      assert paths != [];
      nexthop := paths[0].nexthop;
      paths := paths[0 := paths[0].(expire := expire)];
      assert paths[0].nexthop == nexthop;
    }
  }
}
