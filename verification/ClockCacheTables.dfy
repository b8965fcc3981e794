/** Steps of the clock cache that change the lookup table, an address, a page or the disk. */
module ClockCacheTables {
  import opened DataModel
  import opened ClockCache
  import opened ClockCacheInvariant
  import opened ClockCacheQuiet
  import opened ClockCacheStatus

  ghost predicate SameFlags(s: State, s': State) {
    && |s'.entries| == |s.entries|
    && (forall e :: 0 <= e < |s.entries| ==>
          s'.entries[e].status == s.entries[e].status && s'.entries[e].refs == s.entries[e].refs)
  }

  /** What the step leaves true of another agent. */
  ghost predicate OtherMapOk(s: State, g: Agent)
    requires WellFormed(s) && AgentFormed(s, g)
  {
    TargetOk(s, g.pc) && (EntryOf(g.pc).Some? ==> MapOk(s, g.pc))
  }

  ghost predicate OtherMapsOk(s: State, k: nat)
    requires WellFormed(s)
  {
    forall j :: 0 <= j < |s.agents| && j != k ==> OtherMapOk(s, s.agents[j])
  }

  ghost predicate PagesOk(s: State)
    requires WellFormed(s)
  {
    && (forall a :: a in s.issued ==> a < |s.lookup|)
    && (forall e :: 0 <= e < |s.entries| ==> EntryOk(s, e))
    && (forall a :: 0 <= a < |s.lookup| ==> PageOk(s, a))
    && OneToOne(s)
  }

  /** A step that keeps all flags and references. */
  lemma TableStep(s: State, k: nat, s': State)
    requires Inv(s) && WellFormed(s') && OnlyMoved(s, k, s') && SameFlags(s, s') && PairsOk(s', k)
    requires HoldsRef(s'.agents[k].pc) == HoldsRef(s.agents[k].pc)
    requires EntryOf(s'.agents[k].pc) == EntryOf(s.agents[k].pc)
    requires HoldsClaim(s.agents[k].pc) ==> HoldsClaim(s'.agents[k].pc)
    requires OtherMapsOk(s', k) && AgentOk(s', s'.agents[k]) && TargetOk(s', s'.agents[k].pc) && PagesOk(s')
    ensures Inv(s')
  {
    hide StatusOk, MapOk, TargetOk, PairOk, EntryOk, PageOk, OneToOne, HoldsRef, HoldsClaim, EntryOf, RefsOk, ClaimHeld;
    forall j | 0 <= j < |s'.agents| && j != k ensures AgentOk(s', s'.agents[j]) && TargetOk(s', s'.agents[j].pc) {
      assert AgentOk(s, s.agents[j]) && OtherMapOk(s', s'.agents[j]);
    }
    forall e | 0 <= e < |s'.entries| ensures ClaimHeld(s', e) {
      ClaimStays(s, k, s', e);
    }
    RefsKept(s, k, s');
    Compose(s, k, s');
  }

  lemma ClaimStays(s: State, k: nat, s': State, e: EntryNo)
    requires OnlyMoved(s, k, s') && SameFlags(s, s') && e < |s.entries| && ClaimHeld(s, e)
    requires EntryOf(s'.agents[k].pc) == EntryOf(s.agents[k].pc)
    requires HoldsClaim(s.agents[k].pc) ==> HoldsClaim(s'.agents[k].pc)
    ensures ClaimHeld(s', e)
  {
    hide HoldsClaim, EntryOf;
    if s.entries[e].status.claimed {
      var j :| 0 <= j < |s.agents| && HoldsClaim(s.agents[j].pc) && EntryOf(s.agents[j].pc) == Some(e);
      assert HoldsClaim(s'.agents[j].pc) && EntryOf(s'.agents[j].pc) == Some(e);
    }
  }

  /** Two agents and the state between them. */
  ghost predicate Context(s: State, g: Agent, h: Agent) {
    && WellFormed(s) && AgentFormed(s, g) && AgentFormed(s, h)
    && AgentOk(s, g) && AgentOk(s, h) && TargetOk(s, g.pc) && TargetOk(s, h.pc)
    && PairOk(g, h) && PairOk(h, g)
  }

  lemma InContext(s: State, k: nat, j: nat)
    requires Inv(s) && j < |s.agents| && k < |s.agents| && j != k
    ensures Context(s, s.agents[k], s.agents[j])
  {
    hide AgentOk, TargetOk, PairOk, EntryOk, PageOk, OneToOne, RefsOk, ClaimHeld;
  }

  lemma AllPages(s: State)
    requires Inv(s)
    ensures WellFormed(s) && PagesOk(s)
  {
    hide AgentOk, TargetOk, PairOk, EntryOk, PageOk, OneToOne, RefsOk, ClaimHeld;
  }

  // ------------------------------------------------------------ mapping a load

  lemma LoadMapOther(s: State, g: Agent, h: Agent, s': State)
    requires Context(s, g, h) && g.pc.LoadMap? && s.lookup[g.pc.a].None?
    requires WellFormed(s') && AgentFormed(s', h) && s'.entries == s.entries && s'.disk == s.disk && s'.last == s.last
    requires s'.lookup == s.lookup[g.pc.a := Some(g.pc.e)] && s'.issued == s.issued
    ensures OtherMapOk(s', h)
  {
  }

  lemma LoadMapPages(s: State, g: Agent, s': State)
    requires WellFormed(s) && AgentFormed(s, g) && AgentOk(s, g) && TargetOk(s, g.pc) && PagesOk(s)
    requires g.pc.LoadMap? && s.lookup[g.pc.a].None?
    requires WellFormed(s') && s'.entries == s.entries && s'.disk == s.disk && s'.last == s.last
    requires s'.lookup == s.lookup[g.pc.a := Some(g.pc.e)] && s'.issued == s.issued
    ensures PagesOk(s')
  {
    forall a | 0 <= a < |s'.lookup| ensures PageOk(s', a) {
      assert PageOk(s, a);
    }
    forall e | 0 <= e < |s'.entries| ensures EntryOk(s', e) {
      assert EntryOk(s, e);
    }
  }

  lemma DoLoadMap(s: State, k: nat, s': State)
    requires Inv(s) && k < |s.agents| && s.agents[k].pc.LoadMap? && LoadStep(s, k, s')
    requires s.lookup[s.agents[k].pc.a].None?
    ensures Inv(s')
  {
    hide Inv, PagesOk, Context, PairOk, NoMore, AgentOk, OtherMapOk;
    AgentFacts(s, k);
    AllPages(s);
    LoadMapFormed(s, k, s');
    forall j | 0 <= j < |s'.agents| && j != k ensures OtherMapOk(s', s'.agents[j]) {
      InContext(s, k, j);
      LoadMapOther(s, s.agents[k], s.agents[j], s');
    }
    LoadMapPages(s, s.agents[k], s');
    PairsNoMore(s, k, s');
    TableStep(s, k, s');
  }

  lemma LoadMapFormed(s: State, k: nat, s': State)
    requires WellFormed(s) && k < |s.agents| && s.agents[k].pc.LoadMap? && LoadStep(s, k, s')
    requires s.lookup[s.agents[k].pc.a].None? && AgentOk(s, s.agents[k]) && TargetOk(s, s.agents[k].pc)
    ensures WellFormed(s') && OnlyMoved(s, k, s') && SameFlags(s, s') && NoMore(s.agents[k].pc, s'.agents[k].pc)
    ensures AgentOk(s', s'.agents[k]) && TargetOk(s', s'.agents[k].pc)
    ensures forall j :: 0 <= j < |s.agents| ==> AgentFormed(s', s.agents[j])
  {
    FormedElsewhere(s, s');
  }

  // ------------------------------------------------------------ the address of a load

  lemma LoadSetAddrOther(s: State, g: Agent, h: Agent, s': State)
    requires Context(s, g, h) && g.pc.LoadSetAddr?
    requires WellFormed(s') && AgentFormed(s', h) && s'.lookup == s.lookup && s'.disk == s.disk && s'.last == s.last
    requires s'.issued == s.issued
      && s'.entries == s.entries[g.pc.e := s.entries[g.pc.e].(diskAddr := Some(g.pc.a))]
    ensures OtherMapOk(s', h)
  {
  }

  lemma LoadSetAddrPages(s: State, g: Agent, s': State)
    requires WellFormed(s) && AgentFormed(s, g) && AgentOk(s, g) && TargetOk(s, g.pc) && PagesOk(s)
    requires g.pc.LoadSetAddr?
    requires WellFormed(s') && s'.lookup == s.lookup && s'.disk == s.disk && s'.last == s.last && s'.issued == s.issued
      && s'.entries == s.entries[g.pc.e := s.entries[g.pc.e].(diskAddr := Some(g.pc.a))]
    ensures PagesOk(s')
  {
    forall a | 0 <= a < |s'.lookup| ensures PageOk(s', a) {
      assert PageOk(s, a);
    }
    forall e | 0 <= e < |s'.entries| ensures EntryOk(s', e) {
      assert EntryOk(s, e);
    }
  }

  lemma LoadSetAddrFormed(s: State, k: nat, s': State)
    requires WellFormed(s) && k < |s.agents| && s.agents[k].pc.LoadSetAddr? && LoadStep(s, k, s')
    requires AgentOk(s, s.agents[k]) && TargetOk(s, s.agents[k].pc) && PagesOk(s)
    ensures WellFormed(s') && OnlyMoved(s, k, s') && SameFlags(s, s') && NoMore(s.agents[k].pc, s'.agents[k].pc)
    ensures AgentOk(s', s'.agents[k]) && TargetOk(s', s'.agents[k].pc)
    ensures forall j :: 0 <= j < |s.agents| ==> AgentFormed(s', s.agents[j])
  {
    FormedElsewhere(s, s');
  }

  lemma DoLoadSetAddr(s: State, k: nat, s': State)
    requires Inv(s) && k < |s.agents| && s.agents[k].pc.LoadSetAddr? && LoadStep(s, k, s')
    ensures Inv(s')
  {
    hide Inv, PagesOk, Context, PairOk, NoMore, AgentOk, OtherMapOk;
    AgentFacts(s, k);
    AllPages(s);
    LoadSetAddrFormed(s, k, s');
    forall j | 0 <= j < |s'.agents| && j != k ensures OtherMapOk(s', s'.agents[j]) {
      InContext(s, k, j);
      LoadSetAddrOther(s, s.agents[k], s.agents[j], s');
    }
    LoadSetAddrPages(s, s.agents[k], s');
    PairsNoMore(s, k, s');
    TableStep(s, k, s');
  }

  // ------------------------------------------------------------ the address of a new page

  lemma AllocSetAddrOther(s: State, g: Agent, h: Agent, s': State)
    requires Context(s, g, h) && g.pc.AllocSetAddr?
    requires WellFormed(s') && AgentFormed(s', h) && s'.lookup == s.lookup && s'.disk == s.disk && s'.last == s.last
    requires s'.issued == s.issued
      && s'.entries == s.entries[g.pc.e := s.entries[g.pc.e].(diskAddr := Some(g.pc.a))]
    ensures OtherMapOk(s', h)
  {
  }

  lemma AllocSetAddrPages(s: State, g: Agent, s': State)
    requires WellFormed(s) && AgentFormed(s, g) && AgentOk(s, g) && TargetOk(s, g.pc) && PagesOk(s)
    requires g.pc.AllocSetAddr?
    requires WellFormed(s') && s'.lookup == s.lookup && s'.disk == s.disk && s'.last == s.last && s'.issued == s.issued
      && s'.entries == s.entries[g.pc.e := s.entries[g.pc.e].(diskAddr := Some(g.pc.a))]
    ensures PagesOk(s')
  {
    forall a | 0 <= a < |s'.lookup| ensures PageOk(s', a) {
      assert PageOk(s, a);
    }
    forall e | 0 <= e < |s'.entries| ensures EntryOk(s', e) {
      assert EntryOk(s, e);
    }
  }

  lemma AllocSetAddrFormed(s: State, k: nat, s': State)
    requires WellFormed(s) && k < |s.agents| && s.agents[k].pc.AllocSetAddr? && LoadStep(s, k, s')
    requires AgentOk(s, s.agents[k]) && TargetOk(s, s.agents[k].pc) && PagesOk(s)
    ensures WellFormed(s') && OnlyMoved(s, k, s') && SameFlags(s, s') && NoMore(s.agents[k].pc, s'.agents[k].pc)
    ensures AgentOk(s', s'.agents[k]) && TargetOk(s', s'.agents[k].pc)
    ensures forall j :: 0 <= j < |s.agents| ==> AgentFormed(s', s.agents[j])
  {
    FormedElsewhere(s, s');
  }

  lemma DoAllocSetAddr(s: State, k: nat, s': State)
    requires Inv(s) && k < |s.agents| && s.agents[k].pc.AllocSetAddr? && LoadStep(s, k, s')
    ensures Inv(s')
  {
    hide Inv, PagesOk, Context, PairOk, NoMore, AgentOk, OtherMapOk;
    AgentFacts(s, k);
    AllPages(s);
    AllocSetAddrFormed(s, k, s');
    forall j | 0 <= j < |s'.agents| && j != k ensures OtherMapOk(s', s'.agents[j]) {
      InContext(s, k, j);
      AllocSetAddrOther(s, s.agents[k], s.agents[j], s');
    }
    AllocSetAddrPages(s, s.agents[k], s');
    PairsNoMore(s, k, s');
    TableStep(s, k, s');
  }

  // ------------------------------------------------------------ reading the disk

  lemma LoadReadOther(s: State, g: Agent, h: Agent, s': State)
    requires Context(s, g, h) && g.pc.LoadRead?
    requires WellFormed(s') && AgentFormed(s', h) && s'.lookup == s.lookup && s'.disk == s.disk && s'.last == s.last
    requires s'.issued == s.issued
      && s'.entries == s.entries[g.pc.e := s.entries[g.pc.e].(data := s.disk[g.pc.a])]
    ensures OtherMapOk(s', h)
  {
  }

  lemma LoadReadPages(s: State, g: Agent, s': State)
    requires WellFormed(s) && AgentFormed(s, g) && AgentOk(s, g) && TargetOk(s, g.pc) && PagesOk(s)
    requires g.pc.LoadRead?
    requires WellFormed(s') && s'.lookup == s.lookup && s'.disk == s.disk && s'.last == s.last && s'.issued == s.issued
      && s'.entries == s.entries[g.pc.e := s.entries[g.pc.e].(data := s.disk[g.pc.a])]
    ensures PagesOk(s')
  {
    forall a | 0 <= a < |s'.lookup| ensures PageOk(s', a) {
      assert PageOk(s, a);
    }
    forall e | 0 <= e < |s'.entries| ensures EntryOk(s', e) {
      assert EntryOk(s, e);
    }
  }

  lemma LoadReadFormed(s: State, k: nat, s': State)
    requires WellFormed(s) && k < |s.agents| && s.agents[k].pc.LoadRead? && LoadStep(s, k, s')
    requires AgentOk(s, s.agents[k]) && TargetOk(s, s.agents[k].pc) && PagesOk(s)
    ensures WellFormed(s') && OnlyMoved(s, k, s') && SameFlags(s, s') && NoMore(s.agents[k].pc, s'.agents[k].pc)
    ensures AgentOk(s', s'.agents[k]) && TargetOk(s', s'.agents[k].pc)
    ensures forall j :: 0 <= j < |s.agents| ==> AgentFormed(s', s.agents[j])
  {
    FormedElsewhere(s, s');
    assert PageOk(s, s.agents[k].pc.a);
  }

  lemma DoLoadRead(s: State, k: nat, s': State)
    requires Inv(s) && k < |s.agents| && s.agents[k].pc.LoadRead? && LoadStep(s, k, s')
    ensures Inv(s')
  {
    hide Inv, PagesOk, Context, PairOk, NoMore, AgentOk, OtherMapOk;
    AgentFacts(s, k);
    AllPages(s);
    LoadReadFormed(s, k, s');
    forall j | 0 <= j < |s'.agents| && j != k ensures OtherMapOk(s', s'.agents[j]) {
      InContext(s, k, j);
      LoadReadOther(s, s.agents[k], s.agents[j], s');
    }
    LoadReadPages(s, s.agents[k], s');
    PairsNoMore(s, k, s');
    TableStep(s, k, s');
  }

  // ------------------------------------------------------------ unmapping an evicted page

  lemma EvictUnmapOther(s: State, g: Agent, h: Agent, s': State)
    requires Context(s, g, h) && g.pc.EvictUnmap? && s.entries[g.pc.e].diskAddr.Some?
    requires WellFormed(s') && AgentFormed(s', h) && s'.entries == s.entries && s'.disk == s.disk && s'.last == s.last
    requires s'.issued == s.issued
      && s'.lookup == s.lookup[s.entries[g.pc.e].diskAddr.value := None]
    ensures OtherMapOk(s', h)
  {
  }

  lemma EvictUnmapPages(s: State, g: Agent, s': State)
    requires WellFormed(s) && AgentFormed(s, g) && AgentOk(s, g) && TargetOk(s, g.pc) && PagesOk(s)
    requires g.pc.EvictUnmap? && s.entries[g.pc.e].diskAddr.Some?
    requires WellFormed(s') && s'.entries == s.entries && s'.disk == s.disk && s'.last == s.last
        && s'.issued == s.issued
      && s'.lookup == s.lookup[s.entries[g.pc.e].diskAddr.value := None]
    ensures PagesOk(s')
  {
    forall a | 0 <= a < |s'.lookup| ensures PageOk(s', a) {
      assert PageOk(s, a);
    }
    forall e | 0 <= e < |s'.entries| ensures EntryOk(s', e) {
      assert EntryOk(s, e);
    }
  }

  lemma EvictUnmapFormed(s: State, k: nat, s': State)
    requires WellFormed(s) && k < |s.agents| && s.agents[k].pc.EvictUnmap?
        && s.entries[s.agents[k].pc.e].diskAddr.Some? && EvictStep(s, k, s')
    requires AgentOk(s, s.agents[k]) && TargetOk(s, s.agents[k].pc) && PagesOk(s)
    ensures WellFormed(s') && OnlyMoved(s, k, s') && SameFlags(s, s') && NoMore(s.agents[k].pc, s'.agents[k].pc)
    ensures AgentOk(s', s'.agents[k]) && TargetOk(s', s'.agents[k].pc)
    ensures forall j :: 0 <= j < |s.agents| ==> AgentFormed(s', s.agents[j])
  {
    FormedElsewhere(s, s');
  }

  lemma DoEvictUnmap(s: State, k: nat, s': State)
    requires Inv(s) && k < |s.agents| && s.agents[k].pc.EvictUnmap? && s.entries[s.agents[k].pc.e].diskAddr.Some?
        && EvictStep(s, k, s')
    ensures Inv(s')
  {
    hide Inv, PagesOk, Context, PairOk, NoMore, AgentOk, OtherMapOk;
    AgentFacts(s, k);
    AllPages(s);
    EvictUnmapFormed(s, k, s');
    forall j | 0 <= j < |s'.agents| && j != k ensures OtherMapOk(s', s'.agents[j]) {
      InContext(s, k, j);
      EvictUnmapOther(s, s.agents[k], s.agents[j], s');
    }
    EvictUnmapPages(s, s.agents[k], s');
    PairsNoMore(s, k, s');
    TableStep(s, k, s');
  }

  // ------------------------------------------------------------ forgetting its address

  lemma EvictClearAddrOther(s: State, g: Agent, h: Agent, s': State)
    requires Context(s, g, h) && g.pc.EvictClearAddr?
    requires WellFormed(s') && AgentFormed(s', h) && s'.lookup == s.lookup && s'.disk == s.disk && s'.last == s.last
    requires s'.issued == s.issued
      && s'.entries == s.entries[g.pc.e := s.entries[g.pc.e].(diskAddr := None)]
    ensures OtherMapOk(s', h)
  {
  }

  lemma EvictClearAddrPages(s: State, g: Agent, s': State)
    requires WellFormed(s) && AgentFormed(s, g) && AgentOk(s, g) && TargetOk(s, g.pc) && PagesOk(s)
    requires g.pc.EvictClearAddr?
    requires WellFormed(s') && s'.lookup == s.lookup && s'.disk == s.disk && s'.last == s.last && s'.issued == s.issued
      && s'.entries == s.entries[g.pc.e := s.entries[g.pc.e].(diskAddr := None)]
    ensures PagesOk(s')
  {
    forall a | 0 <= a < |s'.lookup| ensures PageOk(s', a) {
      assert PageOk(s, a);
    }
    forall e | 0 <= e < |s'.entries| ensures EntryOk(s', e) {
      assert EntryOk(s, e);
    }
  }

  lemma EvictClearAddrFormed(s: State, k: nat, s': State)
    requires WellFormed(s) && k < |s.agents| && s.agents[k].pc.EvictClearAddr? && EvictStep(s, k, s')
    requires AgentOk(s, s.agents[k]) && TargetOk(s, s.agents[k].pc) && PagesOk(s)
    ensures WellFormed(s') && OnlyMoved(s, k, s') && SameFlags(s, s') && NoMore(s.agents[k].pc, s'.agents[k].pc)
    ensures AgentOk(s', s'.agents[k]) && TargetOk(s', s'.agents[k].pc)
    ensures forall j :: 0 <= j < |s.agents| ==> AgentFormed(s', s.agents[j])
  {
    FormedElsewhere(s, s');
  }

  lemma DoEvictClearAddr(s: State, k: nat, s': State)
    requires Inv(s) && k < |s.agents| && s.agents[k].pc.EvictClearAddr? && EvictStep(s, k, s')
    ensures Inv(s')
  {
    hide Inv, PagesOk, Context, PairOk, NoMore, AgentOk, OtherMapOk;
    AgentFacts(s, k);
    AllPages(s);
    EvictClearAddrFormed(s, k, s');
    forall j | 0 <= j < |s'.agents| && j != k ensures OtherMapOk(s', s'.agents[j]) {
      InContext(s, k, j);
      EvictClearAddrOther(s, s.agents[k], s.agents[j], s');
    }
    EvictClearAddrPages(s, s.agents[k], s');
    PairsNoMore(s, k, s');
    TableStep(s, k, s');
  }

  // ------------------------------------------------------------ writing back

  lemma FlushWriteOther(s: State, g: Agent, h: Agent, s': State)
    requires Context(s, g, h) && g.pc.FlushWrite?
    requires WellFormed(s') && AgentFormed(s',
        h) && s'.entries == s.entries && s'.lookup == s.lookup && s'.last == s.last && s'.issued == s.issued
      && s'.disk == s.disk[g.pc.a := s.entries[g.pc.e].data]
    ensures OtherMapOk(s', h)
  {
  }

  lemma FlushWritePages(s: State, g: Agent, s': State)
    requires WellFormed(s) && AgentFormed(s, g) && AgentOk(s, g) && TargetOk(s, g.pc) && PagesOk(s)
    requires g.pc.FlushWrite?
    requires WellFormed(s') && s'.entries == s.entries && s'.lookup == s.lookup && s'.last == s.last
        && s'.issued == s.issued
      && s'.disk == s.disk[g.pc.a := s.entries[g.pc.e].data]
    ensures PagesOk(s')
  {
    forall a | 0 <= a < |s'.lookup| ensures PageOk(s', a) {
      assert PageOk(s, a);
    }
    forall e | 0 <= e < |s'.entries| ensures EntryOk(s', e) {
      assert EntryOk(s, e);
    }
  }

  lemma FlushWriteFormed(s: State, k: nat, s': State)
    requires WellFormed(s) && k < |s.agents| && s.agents[k].pc.FlushWrite? && FlushStep(s, k, s')
    requires AgentOk(s, s.agents[k]) && TargetOk(s, s.agents[k].pc) && PagesOk(s)
    ensures WellFormed(s') && OnlyMoved(s, k, s') && SameFlags(s, s') && NoMore(s.agents[k].pc, s'.agents[k].pc)
    ensures AgentOk(s', s'.agents[k]) && TargetOk(s', s'.agents[k].pc)
    ensures forall j :: 0 <= j < |s.agents| ==> AgentFormed(s', s.agents[j])
  {
    FormedElsewhere(s, s');
    assert PageOk(s, s.agents[k].pc.a);
  }

  lemma DoFlushWrite(s: State, k: nat, s': State)
    requires Inv(s) && k < |s.agents| && s.agents[k].pc.FlushWrite? && FlushStep(s, k, s')
    ensures Inv(s')
  {
    hide Inv, PagesOk, Context, PairOk, NoMore, AgentOk, OtherMapOk;
    AgentFacts(s, k);
    AllPages(s);
    FlushWriteFormed(s, k, s');
    forall j | 0 <= j < |s'.agents| && j != k ensures OtherMapOk(s', s'.agents[j]) {
      InContext(s, k, j);
      FlushWriteOther(s, s.agents[k], s.agents[j], s');
    }
    FlushWritePages(s, s.agents[k], s');
    PairsNoMore(s, k, s');
    TableStep(s, k, s');
  }

  // ------------------------------------------------------------ writing a page

  ghost predicate Written(s: State, pc: PC, v: Content, s': State)
    requires WellFormed(s) && pc.Writing? && pc.e < |s.entries| && pc.a < |s.lookup|
  {
    && s'.lookup == s.lookup && s'.disk == s.disk && s'.issued == s.issued
    && s'.entries == s.entries[pc.e := s.entries[pc.e].(data := v)] && s'.last == s.last[pc.a := v]
  }

  lemma WriteOther(s: State, g: Agent, h: Agent, v: Content, s': State)
    requires Context(s, g, h) && g.pc.Writing? && g.pc.dirty && Written(s, g.pc, v, s')
    requires WellFormed(s') && AgentFormed(s', h)
    ensures OtherMapOk(s', h)
  {
  }

  lemma WritePages(s: State, g: Agent, v: Content, s': State)
    requires WellFormed(s) && AgentFormed(s, g) && AgentOk(s, g) && TargetOk(s, g.pc) && PagesOk(s)
    requires g.pc.Writing? && g.pc.dirty && Written(s, g.pc, v, s') && WellFormed(s')
    ensures PagesOk(s')
  {
    forall a | 0 <= a < |s'.lookup| ensures PageOk(s', a) {
      assert PageOk(s, a);
    }
    forall e | 0 <= e < |s'.entries| ensures EntryOk(s', e) {
      assert EntryOk(s, e);
    }
  }

  lemma WriteFormed(s: State, k: nat, v: Content, s': State)
    requires WellFormed(s) && k < |s.agents| && s.agents[k].pc.Writing? && s.agents[k].pc.dirty
    requires AgentOk(s, s.agents[k]) && TargetOk(s, s.agents[k].pc)
    requires s' == Put(s, s.agents[k].pc.e,
        s.entries[s.agents[k].pc.e].(data := v)).(last := s.last[s.agents[k].pc.a := v])
    ensures Written(s, s.agents[k].pc, v, s')
    ensures WellFormed(s') && OnlyMoved(s, k, s') && SameFlags(s, s') && NoMore(s.agents[k].pc, s'.agents[k].pc)
    ensures AgentOk(s', s'.agents[k]) && TargetOk(s', s'.agents[k].pc)
    ensures forall j :: 0 <= j < |s.agents| ==> AgentFormed(s', s.agents[j])
  {
    FormedElsewhere(s, s');
  }

  lemma DoWrite(s: State, k: nat, v: Content, s': State)
    requires Inv(s) && k < |s.agents| && s.agents[k].pc.Writing? && s.agents[k].pc.dirty
    requires s.agents[k].pc.e < |s.entries| && s.agents[k].pc.a < |s.last|
    requires s' == Put(s, s.agents[k].pc.e,
        s.entries[s.agents[k].pc.e].(data := v)).(last := s.last[s.agents[k].pc.a := v])
    ensures Inv(s')
  {
    hide Inv, PagesOk, Context, PairOk, NoMore, AgentOk, OtherMapOk, Written;
    AgentFacts(s, k);
    AllPages(s);
    WriteFormed(s, k, v, s');
    forall j | 0 <= j < |s'.agents| && j != k ensures OtherMapOk(s', s'.agents[j]) {
      InContext(s, k, j);
      WriteOther(s, s.agents[k], s.agents[j], v, s');
    }
    WritePages(s, s.agents[k], v, s');
    PairsNoMore(s, k, s');
    TableStep(s, k, s');
  }

  // -------------------------------------------------------- giving out a page

  ghost predicate GivenOut(s: State, pc: PC, s': State)
    requires WellFormed(s) && pc.AllocMap? && pc.e < |s.entries| && pc.a < |s.lookup|
  {
    && s'.entries == s.entries && s'.disk == s.disk && s'.lookup == s.lookup[pc.a := Some(pc.e)]
    && s'.last == s.last[pc.a := s.entries[pc.e].data] && s'.issued == s.issued + {pc.a}
  }

  lemma AllocMapOther(s: State, g: Agent, h: Agent, s': State)
    requires Context(s, g, h) && g.pc.AllocMap? && GivenOut(s, g.pc, s') && s.lookup[g.pc.a].None?
    requires WellFormed(s') && AgentFormed(s', h)
    ensures OtherMapOk(s', h)
  {
  }

  lemma AllocMapPages(s: State, g: Agent, s': State)
    requires WellFormed(s) && AgentFormed(s, g) && AgentOk(s, g) && TargetOk(s, g.pc) && PagesOk(s)
    requires g.pc.AllocMap? && GivenOut(s, g.pc, s') && WellFormed(s')
    ensures PagesOk(s') && s.lookup[g.pc.a].None?
  {
    assert PageOk(s, g.pc.a);
    forall a | 0 <= a < |s'.lookup| ensures PageOk(s', a) {
      assert PageOk(s, a);
    }
    forall e | 0 <= e < |s'.entries| ensures EntryOk(s', e) {
      assert EntryOk(s, e);
    }
  }

  lemma AllocMapFormed(s: State, k: nat, s': State)
    requires WellFormed(s) && k < |s.agents| && s.agents[k].pc.AllocMap? && LoadStep(s, k, s')
    requires AgentOk(s, s.agents[k]) && TargetOk(s, s.agents[k].pc)
    ensures GivenOut(s, s.agents[k].pc, s') && WellFormed(s') && OnlyMoved(s, k, s') && SameFlags(s, s')
    ensures s'.agents[k].pc == Writing(s.agents[k].pc.a, s.agents[k].pc.e, true, true)
    ensures AgentOk(s', s'.agents[k]) && TargetOk(s', s'.agents[k].pc)
    ensures forall j :: 0 <= j < |s.agents| ==> AgentFormed(s', s.agents[j])
  {
    FormedElsewhere(s, s');
  }

  /** The writer of a page just given out meets no reader of it: nobody else had its address. */
  lemma NewWriterPair(g: Agent, h: Agent, g': Agent)
    requires PairOk(g, h) && PairOk(h, g) && g.pc.AllocMap? && g'.stripe == g.stripe
    requires g'.pc == Writing(g.pc.a, g.pc.e, true, true)
    ensures PairOk(g', h) && PairOk(h, g')
  {
  }

  lemma DoAllocMap(s: State, k: nat, s': State)
    requires Inv(s) && k < |s.agents| && s.agents[k].pc.AllocMap? && LoadStep(s, k, s')
    ensures Inv(s')
  {
    hide Inv, PagesOk, PairOk, AgentOk, OtherMapOk, GivenOut;
    AgentFacts(s, k);
    AllPages(s);
    AllocMapFormed(s, k, s');
    AllocMapPages(s, s.agents[k], s');
    forall j | 0 <= j < |s'.agents| && j != k
      ensures OtherMapOk(s', s'.agents[j]) && PairOk(s'.agents[j], s'.agents[k]) && PairOk(s'.agents[k], s'.agents[j])
    {
      InContext(s, k, j);
      AllocMapOther(s, s.agents[k], s.agents[j], s');
      NewWriterPair(s.agents[k], s.agents[j], s'.agents[k]);
    }
    TableStep(s, k, s');
  }
}
