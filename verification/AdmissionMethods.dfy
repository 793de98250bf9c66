/**
 The pending-lane registry as an object. Permits are values that can be moved but not copied: `home`
 follows each one from its issue to its destructor, and `Valid` says that every permit in an entry, and
 no other, is at home there. Entries change only by `Insert`, which needs a free slot and a permit in
 hand, and by `Remove`, which puts the entry's permit in hand. A permit in hand goes into an entry, to
 the caller, or to its destructor; the destructor takes the lock, which is not re-entrant, so it needs
 the lock free. Overwriting an entry, or removing one and forgetting it, breaks `Valid`. So does
 giving a permit back to another address than the one it was issued to: the counters count the
 outstanding permits, in total and per address.
 */
module AdmissionMethods {
  import opened Options
  import opened Admission

  datatype Home = Entered(nonce: Nonce) | InHand | Outside

  // ---------------------------------------------------------------- counting permits

  /** The outstanding permits that carry one address. */
  function Issued(address: map<TaskId, Ip>, ip: Ip): set<TaskId> {
    set p | p in address && address[p] == ip
  }

  /** The address is listed exactly while it has permits, with their number, within its limit. */
  predicate PeerOk(address: map<TaskId, Ip>, perPeer: map<Ip, int>, ip: Ip) {
    && Count(perPeer, ip) == |Issued(address, ip)| <= MAX_PENDING_LANES_PER_PEER
    && (ip in perPeer <==> Count(perPeer, ip) >= 1)
  }

  /** Both counters count the outstanding permits. */
  ghost predicate Counted(admitted: int, perPeer: map<Ip, int>, address: map<TaskId, Ip>) {
    admitted == |address.Keys| <= MAX_PENDING_LANES && forall ip :: PeerOk(address, perPeer, ip)
  }

  lemma PeerIssued(address: map<TaskId, Ip>, perPeer: map<Ip, int>, t: TaskId, mine: Ip, ip: Ip)
    requires t !in address && Count(perPeer, mine) < MAX_PENDING_LANES_PER_PEER && PeerOk(address, perPeer, ip)
    ensures PeerOk(address[t := mine], perPeer[mine := Count(perPeer, mine) + 1], ip)
  {
    var was := Issued(address, ip);
    assert Issued(address[t := mine], ip) == if ip == mine then was + {t} else was;
  }

  lemma CountIssued(admitted: int, perPeer: map<Ip, int>, address: map<TaskId, Ip>, t: TaskId, mine: Ip)
    requires Counted(admitted, perPeer, address) && t !in address
    requires admitted < MAX_PENDING_LANES && Count(perPeer, mine) < MAX_PENDING_LANES_PER_PEER
    ensures Counted(admitted + 1, perPeer[mine := Count(perPeer, mine) + 1], address[t := mine])
  {
    hide PeerOk;
    var (counts, issued) := (perPeer[mine := Count(perPeer, mine) + 1], address[t := mine]);
    assert issued.Keys == address.Keys + {t};
    forall ip ensures PeerOk(issued, counts, ip) { PeerIssued(address, perPeer, t, mine, ip); }
  }

  lemma PeerReturned(address: map<TaskId, Ip>, perPeer: map<Ip, int>, p: TaskId, ip: Ip)
    requires p in address && PeerOk(address, perPeer, ip) && PeerOk(address, perPeer, address[p])
    ensures PeerOk(address - {p}, Released(perPeer, address[p]), ip) && Count(perPeer, address[p]) >= 1
  {
    var mine := address[p];
    assert p in Issued(address, mine);
    var was := Issued(address, ip);
    assert Issued(address - {p}, ip) == if ip == mine then was - {p} else was;
  }

  lemma CountReturned(admitted: int, perPeer: map<Ip, int>, address: map<TaskId, Ip>, p: TaskId)
    requires Counted(admitted, perPeer, address) && p in address
    ensures Counted(admitted - 1, Released(perPeer, address[p]), address - {p})
    ensures admitted >= 1 && Count(perPeer, address[p]) >= 1
  {
    hide PeerOk, Released;
    var (counts, left) := (Released(perPeer, address[p]), address - {p});
    assert left.Keys == address.Keys - {p};
    PeerReturned(address, perPeer, p, address[p]);
    forall ip ensures PeerOk(left, counts, ip) { PeerReturned(address, perPeer, p, ip); }
  }

  // ---------------------------------------------------------------- where permits are

  /** Every permit is where `home` says. */
  ghost predicate Placed(entries: Entries, address: map<TaskId, Ip>, home: map<TaskId, Home>) {
    && home.Keys == address.Keys
    && (forall n :: n in entries ==>
          entries[n].lane.permit in home && home[entries[n].lane.permit] == Entered(n))
    && (forall p :: p in home && home[p].Entered? ==>
          home[p].nonce in entries && entries[home[p].nonce].lane.permit == p)
  }

  /** Nobody's hand holds a permit. */
  ghost predicate Settled(home: map<TaskId, Home>) {
    forall p :: p in home ==> !home[p].InHand?
  }

  lemma PlacedInsert(entries: Entries, address: map<TaskId, Ip>, home: map<TaskId, Home>, n: Nonce, e: Entry)
    requires Placed(entries, address, home) && n !in entries
    requires e.lane.permit in home && home[e.lane.permit].InHand?
    ensures Placed(entries[n := e], address, home[e.lane.permit := Entered(n)])
  {
    assert home[e.lane.permit := Entered(n)].Keys == home.Keys;
  }

  lemma PlacedRemove(entries: Entries, address: map<TaskId, Ip>, home: map<TaskId, Home>, n: Nonce)
    requires Placed(entries, address, home) && n in entries
    ensures var p := entries[n].lane.permit;
            && p in home && p in address && home[p] == Entered(n) && Placed(entries - {n}, address, home[p := InHand])
            && (forall q :: q in home ==> (home[q] == Entered(n) <==> q == p))
  {
    assert home[entries[n].lane.permit := InHand].Keys == home.Keys;
  }

  lemma PlacedMove(entries: Entries, address: map<TaskId, Ip>, home: map<TaskId, Home>, p: TaskId, to: Home)
    requires Placed(entries, address, home) && p in home && !home[p].Entered? && !to.Entered?
    ensures Placed(entries, address, home[p := to])
  {
    assert home[p := to].Keys == home.Keys;
  }

  lemma PlacedIssue(entries: Entries, address: map<TaskId, Ip>, home: map<TaskId, Home>, t: TaskId, ip: Ip)
    requires Placed(entries, address, home) && t !in address
    ensures Placed(entries, address[t := ip], home[t := Outside])
  {
    assert home[t := Outside].Keys == home.Keys + {t} == address[t := ip].Keys;
  }

  lemma PlacedDrop(entries: Entries, address: map<TaskId, Ip>, home: map<TaskId, Home>, p: TaskId)
    requires Placed(entries, address, home) && p in home && !home[p].Entered?
    ensures Placed(entries, address - {p}, home - {p})
  {
    assert (home - {p}).Keys == home.Keys - {p} == (address - {p}).Keys;
  }

  class PendingLaneRegistry {
    var locked: bool
    var entries: Entries
    var admitted: int
    var perPeer: map<Ip, int>
    // The address each outstanding permit carries, and where the permit is.
    var address: map<TaskId, Ip>
    ghost var home: map<TaskId, Home>

    ghost predicate Valid()
      reads this
    {
      !locked && Counted(admitted, perPeer, address) && Placed(entries, address, home) && Settled(home)
    }

    constructor ()
      ensures Valid() && entries == map[] && admitted == 0 && perPeer == map[] && address == map[] && home == map[]
    {
      locked, entries, admitted, perPeer, address, home := false, map[], 0, map[], map[], map[];
      new;
      assert forall ip :: Issued(address, ip) == {};
    }

    method Lock()
      requires !locked
      modifies `locked
      ensures locked
    {
      locked := true;
    }

    method Unlock()
      requires locked
      modifies `locked
      ensures !locked
    {
      locked := false;
    }

    /** Moves the permit in hand into a free slot. */
    method Insert(n: Nonce, e: Entry)
      requires locked && Placed(entries, address, home) && n !in entries
      requires e.lane.permit in home && home[e.lane.permit].InHand?
      modifies `entries, `home
      ensures Placed(entries, address, home) && entries == old(entries)[n := e]
      ensures home == old(home)[e.lane.permit := Entered(n)]
    {
      hide Placed;
      PlacedInsert(entries, address, home, n, e);
      entries := entries[n := e];
      home := home[e.lane.permit := Entered(n)];
    }

    /** Takes an entry out; its permit is in hand. */
    method Remove(n: Nonce) returns (e: Entry)
      requires locked && Placed(entries, address, home) && n in entries
      modifies `entries, `home
      ensures Placed(entries, address, home) && e == old(entries)[n] && entries == old(entries) - {n}
      ensures e.lane.permit in old(home) && e.lane.permit in address && home == old(home)[e.lane.permit := InHand]
      ensures forall p :: p in old(home) ==> (old(home)[p] == Entered(n) <==> p == e.lane.permit)
    {
      hide Placed;
      PlacedRemove(entries, address, home, n);
      e := entries[n];
      entries := entries - {n};
      home := home[e.lane.permit := InHand];
    }

    /** The destructor of a permit: it takes the lock. No subtraction saturates. */
    method DropPermit(p: TaskId)
      requires !locked && Counted(admitted, perPeer, address) && Placed(entries, address, home)
      requires p in address && p in home && !home[p].Entered?
      modifies `locked, `admitted, `perPeer, `address, `home
      ensures !locked && Counted(admitted, perPeer, address) && Placed(entries, address, home)
      ensures home == old(home) - {p} && address == old(address) - {p}
      ensures old(admitted) >= 1 && admitted == old(admitted) - 1
      ensures Count(old(perPeer), old(address)[p]) >= 1 && perPeer == Released(old(perPeer), old(address)[p])
    {
      hide Counted, Placed;
      CountReturned(admitted, perPeer, address, p);
      PlacedDrop(entries, address, home, p);
      Lock();
      var ip := address[p];
      admitted := if admitted >= 1 then admitted - 1 else 0;
      if ip in perPeer {
        var count := if perPeer[ip] >= 1 then perPeer[ip] - 1 else 0;
        perPeer := if count == 0 then perPeer - {ip} else perPeer[ip := count];
      }
      address, home := address - {p}, home - {p};
      Unlock();
    }

    /** A lane is admitted exactly when neither limit is reached; a refusal changes nothing. */
    method TryAdmit(t: TaskId, ip: Ip) returns (ok: bool)
      requires Valid() && t !in address
      modifies `locked, `admitted, `perPeer, `address, `home
      ensures Valid()
      ensures ok <==> old(admitted) < 1024 && Count(old(perPeer), ip) < 32
      ensures admitted == old(admitted) + if ok then 1 else 0
      ensures perPeer == if ok then old(perPeer)[ip := Count(old(perPeer), ip) + 1] else old(perPeer)
      ensures address == if ok then old(address)[t := ip] else old(address)
      ensures home == if ok then old(home)[t := Outside] else old(home)
    {
      hide Counted, Placed;
      Lock();
      if admitted >= MAX_PENDING_LANES {
        Unlock();
        return false;
      }
      var count := if ip in perPeer then perPeer[ip] else 0;
      if count >= MAX_PENDING_LANES_PER_PEER {
        Unlock();
        return false;
      }
      CountIssued(admitted, perPeer, address, t, ip);
      PlacedIssue(entries, address, home, t, ip);
      admitted := admitted + 1;
      perPeer := perPeer[ip := count + 1];
      address, home := address[t := ip], home[t := Outside];
      Unlock();
      return true;
    }

    /** The permit leaves the caller exactly when a reservation is made; a paired lane brings its own. */
    method RegisterAdmitted(t: TaskId, h: Hello, now: Instant, permit: Option<TaskId>)
      returns (a: Answer, left: Option<TaskId>)
      requires Valid() && permit == Some(t) && t in home && home[t].Outside?
      modifies `locked, `entries, `home
      ensures Valid() && a == Admit(old(entries), h)
      ensures left == if a.Reserve? then None else permit
      ensures entries ==
              match a
              case Reserve =>
                old(entries)[h.nonce := Building(Lane(t, t, h.peer, h.kind, h.group), now + PAIRING_DEADLINE)]
              case Pair(_, _) => old(entries) - {h.nonce}
              case _ => old(entries)
      ensures home ==
              match a
              case Reserve => old(home)[t := Entered(h.nonce)]
              case Pair(lane, _) => old(home)[lane.permit := Outside]
              case _ => old(home)
    {
      hide Counted, Placed;
      Lock();
      left := permit;
      if h.nonce in entries {
        var e := entries[h.nonce];
        if e.lane.peer.ip != h.peer.ip { a := Reject(PeerMismatch); }
        else if e.lane.kind == h.kind { a := Reject(DuplicateClass); }
        else if e.lane.group != h.group { a := Reject(GroupMismatch); }
        else if e.Building? { a := Wait(e.lane.permit, e.expires); }
        else {
          e := Remove(h.nonce);
          a := Pair(e.lane, e.expires);
        }
        Unlock();
        if a.Pair? { HandOut(e.lane.permit); }
      } else {
        Take(t);
        left := None;
        Insert(h.nonce, Building(Lane(t, t, h.peer, h.kind, h.group), now + PAIRING_DEADLINE));
        a := Reserve;
        Unlock();
      }
    }

    /** A permit goes from the hand to the caller. */
    ghost method HandOut(p: TaskId)
      requires Placed(entries, address, home) && p in home && home[p].InHand?
      modifies `home
      ensures Placed(entries, address, home) && home == old(home)[p := Outside]
    {
      PlacedMove(entries, address, home, p, Outside);
      home := home[p := Outside];
    }

    /** A permit goes from the caller to the hand. */
    ghost method Take(p: TaskId)
      requires Placed(entries, address, home) && p in home && home[p].Outside?
      modifies `home
      ensures Placed(entries, address, home) && home == old(home)[p := InHand]
    {
      PlacedMove(entries, address, home, p, InHand);
      home := home[p := InHand];
    }

    /** A reservation is confirmed only by a lane of its own address and class; it keeps its permit. */
    method ConfirmReservation(t: TaskId, h: Hello) returns (ok: bool)
      requires Valid()
      modifies `locked, `entries, `home
      ensures Valid() && (ok <==> Claims(old(entries), h))
      ensures entries == if ok then Confirmed(old(entries), t, h) else old(entries)
      ensures home == old(home)
    {
      hide Counted, Placed;
      Lock();
      ok := false;
      if h.nonce in entries {
        var e := Remove(h.nonce);
        if e.Building? && e.lane.peer == h.peer && e.lane.kind == h.kind {
          Insert(h.nonce, Ready(e.lane.(transport := t, peer := h.peer), e.expires));
          ok := true;
        } else {
          Insert(h.nonce, e);
          assert entries == old(entries);
        }
      }
      Unlock();
    }

    /** Removes exactly a matching reservation; its permit is dropped after the lock is released. */
    method CancelReservation(h: Hello) returns (removed: bool)
      requires Valid()
      modifies `locked, `entries, `admitted, `perPeer, `address, `home
      ensures Valid() && (removed <==> Claims(old(entries), h))
      ensures entries == if removed then old(entries) - {h.nonce} else old(entries)
      ensures !removed ==>
                admitted == old(admitted) && perPeer == old(perPeer) && address == old(address) && home == old(home)
      ensures removed ==>
                var p := old(entries)[h.nonce].lane.permit;
                && p in old(address) && address == old(address) - {p} && home == old(home) - {p}
                && admitted == old(admitted) - 1 && perPeer == Released(old(perPeer), old(address)[p])
    {
      hide Counted, Placed;
      Lock();
      removed := Claims(entries, h);
      if !removed {
        Unlock();
        return;
      }
      var e := Remove(h.nonce);
      Unlock();
      DropPermit(e.lane.permit);
    }

    /** Removes the entry exactly when it hands the lane, with its permit, to the caller. */
    method PairWaitStep(h: Hello, expires: Instant, now: Instant) returns (p: Poll)
      requires Valid()
      modifies `locked, `entries, `home
      ensures Valid() && p == PollPair(old(entries), h, expires, now)
      ensures entries == if p.Paired? then old(entries) - {h.nonce} else old(entries)
      ensures home == if p.Paired? then old(home)[p.lane.permit := Outside] else old(home)
    {
      hide Counted, Placed;
      Lock();
      if h.nonce !in entries {
        p := Lost(Disappeared);
      } else {
        var e := entries[h.nonce];
        if e.lane.peer.ip != h.peer.ip { p := Lost(PeerMismatch); }
        else if e.lane.kind == h.kind { p := Lost(DuplicateClass); }
        else if e.Ready? {
          e := Remove(h.nonce);
          p := Paired(e.lane);
        } else if now >= expires { p := Timeout; }
        else { p := StillBuilding; }
      }
      Unlock();
      if p.Paired? { HandOut(p.lane.permit); }
    }

    /** The lane goes back under its nonce, or to the caller when the slot was taken meanwhile. */
    method ReinsertReadyLane(n: Nonce, lane: Lane, expires: Instant) returns (back: Option<Lane>)
      requires Valid() && lane.permit in home && home[lane.permit].Outside?
      modifies `locked, `entries, `home
      ensures Valid() && (back == if n in old(entries) then Some(lane) else None)
      ensures entries == if n in old(entries) then old(entries) else old(entries)[n := Ready(lane, expires)]
      ensures home == if n in old(entries) then old(home) else old(home)[lane.permit := Entered(n)]
    {
      hide Counted, Placed;
      Lock();
      if n in entries {
        Unlock();
        return Some(lane);
      }
      Take(lane.permit);
      Insert(n, Ready(lane, expires));
      Unlock();
      return None;
    }

    /** The minimum over the entries' deadlines. */
    method NextExpiry() returns (o: Option<Instant>)
      requires Valid()
      modifies `locked
      ensures Valid() && Earliest(entries, o)
    {
      hide Counted, Placed;
      Lock();
      o := None;
      var todo := entries.Keys;
      while exists n :: n in todo
        invariant locked && todo <= entries.Keys
        invariant o.None? ==> todo == entries.Keys
        invariant o.Some? ==> exists n :: n in entries && entries[n].expires == o.value
        invariant o.Some? ==> forall n :: n in entries && n !in todo ==> o.value <= entries[n].expires
        decreases |todo|
      {
        var n :| n in todo;
        var d := entries[n].expires;
        o := if o.None? || d < o.value then Some(d) else o;
        todo := todo - {n};
      }
      assert todo == {};
      Unlock();
    }

    /** Takes the due entries out, one by one. */
    method TakeOut(due: set<Nonce>) returns (removed: Entries)
      requires locked && Placed(entries, address, home) && due <= entries.Keys
      modifies `entries, `home
      ensures Placed(entries, address, home) && removed.Keys == due
      ensures Split(old(entries), entries, removed) && Expelled(old(home), home, due, InHand)
    {
      hide Placed, Split, Expelled;
      removed := map[];
      var todo := due;
      NothingTaken(entries, home);
      assert due - todo == {};
      while exists n :: n in todo
        invariant locked && Placed(entries, address, home) && todo <= due && todo <= entries.Keys
        invariant removed.Keys == due - todo
        invariant Split(old(entries), entries, removed) && Expelled(old(home), home, due - todo, InHand)
        decreases |todo|
      {
        var n :| n in todo;
        OneMore(old(entries), entries, removed, n);
        ghost var was := home;
        var e := Remove(n);
        ExpelledMore(old(home), was, due - todo, n, e.lane.permit);
        OneLess(due, todo, n, removed, e);
        removed := removed[n := e];
        todo := todo - {n};
      }
      assert todo == {};
      assert due - todo == due;
    }

    /**
     Removes exactly the entries whose deadline has come, building or ready, and hands them out with
     their permits. The next deadline, if any, is then still ahead.
     */
    method Expire(now: Instant) returns (removed: Entries)
      requires Valid()
      modifies `locked, `entries, `home
      ensures Valid()
      ensures removed == Expired(old(entries), now) && entries == Kept(old(entries), now)
      ensures forall n :: n in old(entries) ==>
                && (n in removed <==> old(entries)[n].expires <= now) && (n in entries <==> n !in removed)
                && (if n in removed then removed[n] else entries[n]) == old(entries)[n]
      ensures forall o :: Earliest(entries, o) ==> o.None? || o.value > now
      ensures Expelled(old(home), home, removed.Keys, Outside)
    {
      hide Counted, Placed, Split, Expelled;
      Lock();
      ghost var was := entries;
      var due := set n | n in entries && Due(entries[n], now);
      removed := TakeOut(due);
      SplitByTime(was, entries, removed, now);
      Unlock();
      HandOutAll(due);
    }

    /** All permits in hand go to the caller. */
    ghost method HandOutAll(due: set<Nonce>)
      requires Placed(entries, address, home)
      modifies `home
      ensures Placed(entries, address, home) && Settled(home)
      ensures forall was :: Settled(was) && Expelled(was, old(home), due, InHand) ==> Expelled(was, home, due, Outside)
    {
      home := map p | p in home :: if home[p].InHand? then Outside else home[p];
      assert home.Keys == old(home).Keys;
    }
  }

  /** The entries are those that stay and those that are taken out. */
  ghost predicate Split(was: Entries, left: Entries, removed: Entries) {
    && left.Keys == was.Keys - removed.Keys && removed.Keys <= was.Keys
    && (forall n :: n in left ==> left[n] == was[n]) && (forall n :: n in removed ==> removed[n] == was[n])
  }

  /** Where a permit is after the entries `due` were taken out: `to`, if it was in one of them. */
  ghost predicate Expelled(was: map<TaskId, Home>, home: map<TaskId, Home>, due: set<Nonce>, to: Home) {
    && home.Keys == was.Keys
    && forall p :: p in was ==> home[p] == if was[p].Entered? && was[p].nonce in due then to else was[p]
  }

  lemma NothingTaken(entries: Entries, home: map<TaskId, Home>)
    ensures Split(entries, entries, map[]) && Expelled(home, home, {}, InHand)
  {}

  lemma OneLess(due: set<Nonce>, todo: set<Nonce>, n: Nonce, removed: Entries, e: Entry)
    requires n in todo && todo <= due && removed.Keys == due - todo
    ensures due - (todo - {n}) == due - todo + {n} == removed[n := e].Keys
  {}

  lemma OneMore(was: Entries, left: Entries, removed: Entries, n: Nonce)
    requires Split(was, left, removed) && n in left
    ensures Split(was, left - {n}, removed[n := left[n]])
  {}

  lemma ExpelledMore(was: map<TaskId, Home>, home: map<TaskId, Home>, due: set<Nonce>, n: Nonce, p: TaskId)
    requires Expelled(was, home, due, InHand) && p in home && home[p] == Entered(n)
    requires forall q :: q in home ==> (home[q] == Entered(n) <==> q == p)
    ensures Expelled(was, home[p := InHand], due + {n}, InHand)
  {
    assert home[p := InHand].Keys == home.Keys;
  }

  lemma SplitByTime(was: Entries, left: Entries, removed: Entries, now: Instant)
    requires Split(was, left, removed) && removed.Keys == set n | n in was && Due(was[n], now)
    ensures removed == Expired(was, now) && left == Kept(was, now)
  {
    assert removed.Keys == Expired(was, now).Keys && left.Keys == Kept(was, now).Keys;
  }
}
