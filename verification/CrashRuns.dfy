/** Runs with crashes anywhere: all blobs but those that crashes tore behave like the
    simple store, in which a cut-off request is carried out or not. */
module CrashRuns {
  import opened Types
  import opened World
  import opened Plans
  import opened Integrity
  import opened SafePlans
  import opened Frames
  import opened Effects
  import opened Moments
  import opened CrashSafety
  import opened Refinement
  import opened BlobRead
  import opened Recovery
  import opened CutOff
  import opened Applied
  import opened Hiding

  /** The invariant of a server between events, the hidden blobs aside. */
  ghost predicate SoundBut(m: Md5, w: World, hidden: set<Key>) {
    Settled(w) && Faithful(m, Restrict(w, hidden)) && exists h :: Intact(w, h)
  }

  lemma SoundButIsSound(m: Md5, w: World, hidden: set<Key>)
    requires SoundBut(m, w, hidden)
    ensures Sound(m, Restrict(w, hidden))
  {
    var h :| Intact(w, h);
    RestrictKeeps(w, hidden, h);
  }

  /** With nothing hidden it is the invariant of whole operations. */
  lemma NothingHidden(m: Md5, w: World)
    ensures SoundBut(m, w, {}) <==> Sound(m, w)
    ensures Hide(Abstract(w), {}) == Abstract(w)
  {
    assert HideRows(w.db, {}).staged == w.db.staged;
    assert Restrict(w, {}) == w;
    HideIsAbstract(w, {});
  }

  /** The blobs an event tears. */
  function TornBy(m: Md5, w: World, e: Event, w': World): set<Key> {
    match e
    case Completed(_) => {}
    case Crash(op, taken, _) => Tears(m, w, op, taken, w')
  }

  /** What the simple store with the same blobs hidden makes of an event. */
  ghost predicate FollowsStore(m: Md5, w: World, e: Event, w': World, hidden: set<Key>, applied: bool) {
    Abstract(Restrict(w', hidden))
    == if applied then StoreStep(m, Abstract(Restrict(w, hidden)), e.op).0 else Abstract(Restrict(w, hidden))
  }

  lemma Afterwards(m: Md5, w: World, e: Event, w': World, hidden: set<Key>)
    requires SoundBut(m, w, hidden) && Happens(m, w, e, w') && Faithful(m, Restrict(w', hidden))
    ensures SoundBut(m, w', hidden)
  {
    var h0 :| Intact(w, h0);
    var h := h0 + Intended(w, e.op);
    MoreHistory(w, h0, h);
    EventKeepsInvariant(m, w, e, w', h);
  }

  // -------------------------------------------------- operations in sight

  lemma SameBody(w: World, op: Op, hidden: set<Key>)
    requires IsWrite(op) && Visible(op, hidden)
    ensures BodyOf(Restrict(w, hidden), op) == BodyOf(w, op)
    ensures FileSteps(Restrict(w, hidden), op) == FileSteps(w, op)
    ensures HasRow(Restrict(w, hidden), op) == HasRow(w, op)
  {
    if op.PutBlockList? {
      SameResolve(w.db, op.key, op.refs, hidden);
    }
  }

  lemma SameTorn(m: Md5, w: World, op: Op, n: nat, found: Disk, hidden: set<Key>)
    requires Visible(op, hidden) && Torn(m, Restrict(w, hidden), op, n, found)
    ensures Torn(m, w, op, n, found)
  {
    SamePlan(m, w, op, hidden);
    if IsWrite(op) {
      SameBody(w, op, hidden);
    }
  }

  lemma FewerReturn(w: World, op: Op, w': World, hidden: set<Key>)
    ensures Returned(Restrict(w, hidden), op, Restrict(w', hidden)) <= Returned(w, op, w') - hidden
  {
  }

  lemma TornIsItsKey(m: Md5, w: World, op: Op, n: nat, w': World)
    ensures Torn(m, w, op, n, w'.disk) ==> KeyOf(op).Some? && KeyOf(op).value in Tears(m, w, op, n, w')
  {
  }

  lemma VisibleEvent(m: Md5, w: World, e: Event, w': World, hidden: set<Key>, h: History) returns (applied: bool)
    requires SoundBut(m, w, hidden) && Intact(w, h) && Happens(m, w, e, w') && Visible(e.op, hidden)
    requires TornBy(m, w, e, w') <= hidden
    ensures e.Completed? ==> applied
    ensures Faithful(m, Restrict(w', hidden)) && FollowsStore(m, w, e, w', hidden, applied)
  {
    var few, few' := Restrict(w, hidden), Restrict(w', hidden);
    SoundButIsSound(m, w, hidden);
    HideEvent(m, w, e, w', hidden, h);
    match e
    case Completed(op) =>
      SoundAfter(m, few, op);
      applied := true;
    case Crash(op, n, found) =>
      applied := VisibleCrash(m, w, op, n, w', hidden);
  }

  lemma VisibleCrash(m: Md5, w: World, op: Op, n: nat, w': World, hidden: set<Key>) returns (applied: bool)
    requires Sound(m, Restrict(w, hidden)) && Visible(op, hidden) && Tears(m, w, op, n, w') <= hidden
    requires Happens(m, Restrict(w, hidden), Crash(op, n, w'.disk), Restrict(w', hidden))
    ensures Faithful(m, Restrict(w', hidden))
    ensures FollowsStore(m, w, Crash(op, n, w'.disk), w', hidden, applied)
  {
    var few, few' := Restrict(w, hidden), Restrict(w', hidden);
    TornIsItsKey(m, w, op, n, w');
    if Torn(m, few, op, n, w'.disk) { SameTorn(m, w, op, n, w'.disk, hidden); }
    FewerReturn(w, op, w', hidden);
    CutOffRefines(m, few, op, n, few');
    applied := Abstract(few') != Abstract(few);
  }

  // ---------------------------------------------- operations on hidden blobs

  lemma OthersKept(m: Md5, w: World, e: Event, w': World, k: Key, f: FileName, h: History)
    requires Intact(w, h) && Happens(m, w, e, w')
    requires KeyOf(e.op) == Some(k) && !FileIn(f, OneBlob(k)) && !f.TempFile?
    requires e.Crash? ==> w.disk.Residue(f) == {}
    ensures SameFile(w.disk, w'.disk, f)
  {
    match e
    case Completed(op) =>
      WholeFrame(m, w, op, h);
      DataKept(w.disk, w'.disk, h, f);
    case Crash(op, n, found) =>
      OperationFrame(m, w, op, n, h);
      CrashKeepsFile(w.disk, Midway(m, w, op, n).disk, found, h, f);
  }

  lemma LostKept(m: Md5, w: World, e: Event, w': World, hidden: set<Key>, k: Key, lost: Key, h: History)
    requires Intact(w, h) && Happens(m, w, e, w') && TornBy(m, w, e, w') <= hidden
    requires KeyOf(e.op) == Some(k) && k in hidden
    requires lost in Missing(w) && lost !in hidden && lost in w'.db.blobs
    ensures SameFile(w.disk, w'.disk, BlobFile(lost))
  {
    match e
    case Completed(op) =>
      WholeFrame(m, w, op, h);
      DataKept(w.disk, w'.disk, h, BlobFile(lost));
    case Crash(op, n, found) =>
      assert lost !in Returned(w, op, w');
  }

  lemma HiddenRows(m: Md5, w: World, e: Event, w': World, hidden: set<Key>, h: History)
    requires Intact(w, h) && Happens(m, w, e, w') && KeyOf(e.op).Some? && KeyOf(e.op).value in hidden
    ensures HideRows(w'.db, hidden) == HideRows(w.db, hidden)
  {
    match e
    case Completed(op) =>
      UnseenMidway(m, w, op, |PlanOf(m, w, op).steps|, hidden, h);
      MidwayAtEnd(m, w, op);
    case Crash(op, n, _) =>
      UnseenMidway(m, w, op, n, hidden, h);
  }

  /** An event about a hidden blob changes nothing in sight. */
  lemma HiddenEvent(m: Md5, w: World, e: Event, w': World, hidden: set<Key>, h: History)
    requires SoundBut(m, w, hidden) && Intact(w, h) && Happens(m, w, e, w')
    requires KeyOf(e.op).Some? && KeyOf(e.op).value in hidden && TornBy(m, w, e, w') <= hidden
    ensures Faithful(m, Restrict(w', hidden)) && FollowsStore(m, w, e, w', hidden, false)
  {
    var few, few', k := Restrict(w, hidden), Restrict(w', hidden), KeyOf(e.op).value;
    HiddenRows(m, w, e, w', hidden, h);
    OthersInSight(m, w, e, w', hidden, k, h);
    SimulateSame(m, few, few');
  }

  lemma BlobInSight(m: Md5, w: World, e: Event, w': World, hidden: set<Key>, k: Key, j: Key, h: History)
    requires Settled(w) && Intact(w, h) && Happens(m, w, e, w') && TornBy(m, w, e, w') <= hidden
    requires KeyOf(e.op) == Some(k) && k in hidden && j in w.db.blobs && j in w'.db.blobs && j !in hidden
    ensures SameFile(w.disk, w'.disk, BlobFile(j))
  {
    if j in Missing(w) {
      LostKept(m, w, e, w', hidden, k, j, h);
    } else {
      OthersKept(m, w, e, w', k, BlobFile(j), h);
    }
  }

  lemma BlocksInSight(m: Md5, w: World, e: Event, w': World, hidden: set<Key>, k: Key, h: History)
    requires Settled(w) && Intact(w, h) && Happens(m, w, e, w') && KeyOf(e.op) == Some(k) && k in hidden
    ensures forall b | b in HideRows(w.db, hidden).staged.Keys :: SameFile(w.disk, w'.disk, BlockFile(b))
  {
    forall b | b in HideRows(w.db, hidden).staged.Keys ensures SameFile(w.disk, w'.disk, BlockFile(b)) {
      OthersKept(m, w, e, w', k, BlockFile(b), h);
    }
  }

  lemma OthersInSight(m: Md5, w: World, e: Event, w': World, hidden: set<Key>, k: Key, h: History)
    requires Settled(w) && Intact(w, h) && Happens(m, w, e, w') && TornBy(m, w, e, w') <= hidden
    requires KeyOf(e.op) == Some(k) && k in hidden && HideRows(w'.db, hidden) == HideRows(w.db, hidden)
    ensures SameData(w.disk, w'.disk, HideRows(w.db, hidden).blobs.Keys, HideRows(w.db, hidden).staged.Keys)
  {
    BlocksInSight(m, w, e, w', hidden, k, h);
    forall j | j in HideRows(w.db, hidden).blobs.Keys ensures SameFile(w.disk, w'.disk, BlobFile(j)) {
      assert j in HideRows(w'.db, hidden).blobs;
      BlobInSight(m, w, e, w', hidden, k, j, h);
    }
  }

  // -------------------------------------------------- deleting a container

  lemma DroppedInSight(m: Md5, w: World, a: string, c: string, w1: World, hidden: set<Key>, h: History)
    requires SoundBut(m, w, hidden) && Intact(w, h) && (a, c) in w.db.containers
    requires w1.db == w.db.WithoutContainer(a, c) && SameFiles(w.disk, w1.disk, WholeContainer(a, c))
    ensures Faithful(m, Restrict(w1, hidden)) && Missing(w1) <= Missing(w)
    ensures Abstract(Restrict(w1, hidden))
         == StoreStep(m, Abstract(Restrict(w, hidden)), DeleteContainer(a, c)).0
  {
    var few, few1 := Restrict(w, hidden), Restrict(w1, hidden);
    RestrictKeeps(w, hidden, h);
    HideDrop(w.db, a, c, hidden);
    DeletionKeepsRest(few, a, c, few1, h);
    DeletionIsStoreStep(m, few, a, c, few1);
  }

  /** Before the crash, or at its end: the container is there or gone as a whole. */
  lemma DropMidway(m: Md5, w: World, op: Op, n: nat, hidden: set<Key>, h: History) returns (applied: bool)
    requires op.DeleteContainer? && SoundBut(m, w, hidden) && Intact(w, h) && n <= |PlanOf(m, w, op).steps|
    ensures var w1 := Midway(m, w, op, n);
            && Faithful(m, Restrict(w1, hidden)) && Missing(w1) <= Missing(w)
            && FollowsStore(m, w, Completed(op), w1, hidden, applied)
    ensures n == |PlanOf(m, w, op).steps| ==> applied
  {
    var w1 := Midway(m, w, op, n);
    if n == 0 {
      applied := PlanOf(m, w, op).steps == [];
    } else {
      DeletionBegun(m, w, op.account, op.container, n);
      OperationFrame(m, w, op, n, h);
      DroppedInSight(m, w, op.account, op.container, w1, hidden, h);
      applied := true;
    }
  }

  lemma DropEvent(m: Md5, w: World, e: Event, w': World, hidden: set<Key>, h: History) returns (applied: bool)
    requires e.op.DeleteContainer? && SoundBut(m, w, hidden) && Intact(w, h) && Happens(m, w, e, w')
    requires TornBy(m, w, e, w') <= hidden
    ensures e.Completed? ==> applied
    ensures Faithful(m, Restrict(w', hidden)) && FollowsStore(m, w, e, w', hidden, applied)
  {
    match e
    case Completed(op) =>
      MidwayAtEnd(m, w, op);
      applied := DropMidway(m, w, op, |PlanOf(m, w, op).steps|, hidden, h);
    case Crash(op, n, found) =>
      applied := DropMidway(m, w, op, n, hidden, h);
      CrashInSight(m, w, op, n, w', hidden, h);
  }

  /** A crash of a deletion keeps what is in sight. */
  lemma CrashInSight(m: Md5, w: World, op: Op, n: nat, w': World, hidden: set<Key>, h0: History)
    requires op.DeleteContainer? && SoundBut(m, w, hidden) && Intact(w, h0)
    requires Happens(m, w, Crash(op, n, w'.disk), w') && Tears(m, w, op, n, w') <= hidden
    requires var w1 := Midway(m, w, op, n); Faithful(m, Restrict(w1, hidden)) && Missing(w1) <= Missing(w)
    ensures Faithful(m, Restrict(w', hidden))
    ensures Abstract(Restrict(w', hidden)) == Abstract(Restrict(Midway(m, w, op, n), hidden))
  {
    var w1, h := Midway(m, w, op, n), h0 + Intended(w, op);
    MoreHistory(w, h0, h);
    MidwayIntact(m, w, op, n, h);
    DropSettled(m, w, op, n, h);
    RestrictKeeps(w1, hidden, h);
    forall k | k in Missing(Restrict(w1, hidden)) ensures w'.disk.Entry(BlobFile(k)) == None {
      assert k !in Returned(w, op, w');
    }
    CrashOfSound(m, Restrict(w1, hidden), w'.disk);
  }

  lemma DropSettled(m: Md5, w: World, op: Op, n: nat, h: History)
    requires op.DeleteContainer? && Intact(w, h) && Settled(w) && n <= |PlanOf(m, w, op).steps|
    ensures Settled(Midway(m, w, op, n))
  {
    if n == 0 {
    } else {
      DeletionBegun(m, w, op.account, op.container, n);
      OperationFrame(m, w, op, n, h);
      SettledByFrame(w, op.account, op.container, Midway(m, w, op, n));
    }
  }

  // ------------------------------------------------------------- all events

  /** Any event, as long as what it tears is hidden, is an event of the simple store with
      the same blobs hidden: an answered request in sight is carried out, a cut-off one
      is carried out or not, and one about a hidden blob is not seen. */
  lemma EventRefines(m: Md5, w: World, e: Event, w': World, hidden: set<Key>) returns (applied: bool)
    requires SoundBut(m, w, hidden) && Happens(m, w, e, w') && TornBy(m, w, e, w') <= hidden
    ensures SoundBut(m, w', hidden) && FollowsStore(m, w, e, w', hidden, applied)
    ensures e.Completed? && !(KeyOf(e.op).Some? && KeyOf(e.op).value in hidden) ==> applied
    ensures KeyOf(e.op).Some? && KeyOf(e.op).value in hidden ==> !applied
  {
    var h :| Intact(w, h);
    if KeyOf(e.op).Some? && KeyOf(e.op).value in hidden {
      HiddenEvent(m, w, e, w', hidden, h);
      applied := false;
    } else if e.op.DeleteContainer? {
      applied := DropEvent(m, w, e, w', hidden, h);
    } else {
      applied := VisibleEvent(m, w, e, w', hidden, h);
    }
    Afterwards(m, w, e, w', hidden);
  }

  // ---------------------------------------------------------------- runs

  /** A run of the simple store in which some of the requests are not carried out. */
  function StoreEvents(m: Md5, s: Store, es: seq<Event>, applied: seq<bool>): Store
    requires |applied| == |es|
    decreases |es|
  {
    if es == [] then s
    else
      var n := |es| - 1;
      var before := StoreEvents(m, s, es[..n], applied[..n]);
      if applied[n] then StoreStep(m, before, es[n].op).0 else before
  }

  lemma StoreEventsSnoc(m: Md5, s: Store, es: seq<Event>, before: seq<bool>, last: bool)
    requires |es| == |before| + 1
    ensures var prev := StoreEvents(m, s, es[..|before|], before);
            StoreEvents(m, s, es, before + [last]) == if last then StoreStep(m, prev, es[|before|].op).0 else prev
  {
    assert (before + [last])[..|before|] == before;
  }

  /** The worlds and events of a run during which only hidden blobs are torn. */
  ghost predicate TearsOnly(m: Md5, ws: seq<World>, es: seq<Event>, hidden: set<Key>) {
    && |ws| == |es| + 1
    && (forall i | 0 <= i < |es| :: Happens(m, ws[i], es[i], ws[i + 1]))
    && (forall i | 0 <= i < |es| :: TornBy(m, ws[i], es[i], ws[i + 1]) <= hidden)
  }

  lemma TearsOnlyBefore(m: Md5, ws: seq<World>, es: seq<Event>, hidden: set<Key>,
                        worlds: seq<World>, events: seq<Event>)
    requires TearsOnly(m, ws, es, hidden) && es != [] && worlds == ws[..|es|] && events == es[..|es| - 1]
    ensures TearsOnly(m, worlds, events, hidden)
    ensures worlds[0] == ws[0] && worlds[|events|] == ws[|es| - 1]
  {
    forall i | 0 <= i < |events|
      ensures Happens(m, worlds[i], events[i], worlds[i + 1])
      ensures TornBy(m, worlds[i], events[i], worlds[i + 1]) <= hidden
    {
      assert worlds[i] == ws[i] && events[i] == es[i] && worlds[i + 1] == ws[i + 1];
    }
  }

  predicate AsAnswered(e: Event, applied: bool, hidden: set<Key>) {
    if KeyOf(e.op).Some? && KeyOf(e.op).value in hidden then !applied else e.Completed? ==> applied
  }

  /** Which requests are carried out: all that were answered, but for those about hidden
      blobs, which are not seen. */
  predicate CarriedOut(es: seq<Event>, applied: seq<bool>, hidden: set<Key>) {
    |applied| == |es| && forall i | 0 <= i < |es| :: AsAnswered(es[i], applied[i], hidden)
  }

  lemma CarriedOutSnoc(es: seq<Event>, before: seq<bool>, last: bool, hidden: set<Key>)
    requires |es| == |before| + 1 && CarriedOut(es[..|before|], before, hidden)
    requires AsAnswered(es[|before|], last, hidden)
    ensures CarriedOut(es, before + [last], hidden)
  {
    forall i | 0 <= i < |before| ensures AsAnswered(es[i], before[i], hidden) {
      assert es[..|before|][i] == es[i];
    }
  }

  /** Runs with crashes refine the simple store: from a world that is sound but for some
      hidden blobs, through any operations and any crashes that tear hidden blobs only,
      the other blobs are those of a run of the simple store in which every request
      that was answered is carried out and every cut-off one is carried out or not. */
  lemma {:induction false} CrashRunRefines(m: Md5, ws: seq<World>, es: seq<Event>, hidden: set<Key>)
    returns (applied: seq<bool>)
    requires TearsOnly(m, ws, es, hidden) && SoundBut(m, ws[0], hidden)
    ensures |applied| == |es| && CarriedOut(es, applied, hidden)
    ensures SoundBut(m, ws[|es|], hidden)
    ensures Hide(Abstract(ws[|es|]), hidden) == StoreEvents(m, Hide(Abstract(ws[0]), hidden), es, applied)
    decreases |es|
  {
    if es == [] {
      applied := [];
    } else {
      var n := |es| - 1;
      var worlds, events := ws[..|es|], es[..n];
      TearsOnlyBefore(m, ws, es, hidden, worlds, events);
      var before := CrashRunRefines(m, worlds, events, hidden);
      var last := OneMore(m, ws[n], es[n], ws[|es|], hidden);
      applied := before + [last];
      CarriedOutSnoc(es, before, last, hidden);
      StoreEventsSnoc(m, Hide(Abstract(ws[0]), hidden), es, before, last);
    }
  }

  lemma OneMore(m: Md5, w: World, e: Event, w': World, hidden: set<Key>) returns (applied: bool)
    requires SoundBut(m, w, hidden) && Happens(m, w, e, w') && TornBy(m, w, e, w') <= hidden
    ensures SoundBut(m, w', hidden)
    ensures Hide(Abstract(w'), hidden)
         == if applied then StoreStep(m, Hide(Abstract(w), hidden), e.op).0 else Hide(Abstract(w), hidden)
    ensures AsAnswered(e, applied, hidden)
  {
    applied := EventRefines(m, w, e, w', hidden);
    HideIsAbstract(w, hidden);
    HideIsAbstract(w', hidden);
  }

  // ------------------------------------------------------- from an empty server

  /** The blobs that crashes tore during a run. */
  function TornIn(m: Md5, ws: seq<World>, es: seq<Event>): set<Key>
    requires |ws| == |es| + 1
    decreases |es|
  {
    if es == [] then {}
    else
      var n := |es| - 1;
      TornIn(m, ws[..n + 1], es[..n]) + TornBy(m, ws[n], es[n], ws[n + 1])
  }

  lemma {:induction false} TornInHasAll(m: Md5, ws: seq<World>, es: seq<Event>, i: nat)
    requires |ws| == |es| + 1 && i < |es|
    ensures TornBy(m, ws[i], es[i], ws[i + 1]) <= TornIn(m, ws, es)
    decreases |es|
  {
    var n := |es| - 1;
    if i == n {
    } else {
      TornInHasAll(m, ws[..n + 1], es[..n], i);
    }
  }

  /** Every run of a new server, with any operations and any crashes: all blobs but those
      the crashes tore are those of a run of the simple store. */
  lemma EveryRunRefines(m: Md5, ws: seq<World>, es: seq<Event>) returns (applied: seq<bool>)
    requires IsRun(m, ws, es)
    ensures |applied| == |es| && CarriedOut(es, applied, TornIn(m, ws, es))
    ensures var torn := TornIn(m, ws, es);
            && SoundBut(m, ws[|es|], torn)
            && Hide(Abstract(ws[|es|]), torn) == StoreEvents(m, Abstract(ws[0]), es, applied)
            && (torn == {} ==> Sound(m, ws[|es|]) && Hide(Abstract(ws[|es|]), torn) == Abstract(ws[|es|]))
  {
    var torn := TornIn(m, ws, es);
    forall i | 0 <= i < |es| ensures TornBy(m, ws[i], es[i], ws[i + 1]) <= torn {
      TornInHasAll(m, ws, es, i);
    }
    var accounts :| ws[0] == Empty(accounts);
    EmptyInSight(m, accounts, torn);
    applied := CrashRunRefines(m, ws, es, torn);
    NothingHidden(m, ws[|es|]);
  }

  lemma EmptyInSight(m: Md5, accounts: set<string>, hidden: set<Key>)
    ensures SoundBut(m, Empty(accounts), hidden)
    ensures Hide(Abstract(Empty(accounts)), hidden) == Abstract(Empty(accounts))
  {
    EmptyIsSound(m, accounts);
    assert Restrict(Empty(accounts), hidden) == Empty(accounts);
    HideIsAbstract(Empty(accounts), hidden);
  }

  // ---------------------------------------------------- written or deleted again

  /** The blob's own rows are true. */
  ghost predicate FaithfulAt(m: Md5, w: World, k: Key) {
    && (k in w.db.blobs ==> TrueRow(m, w.disk, k, w.db.blobs[k]))
    && (forall b | b in w.db.staged && b.blob == k :: TrueStagedRow(m, w.disk, b, w.db.staged[b]))
    && (k in w.db.committed ==> k in w.db.blobs)
  }

  lemma BackInSight(m: Md5, w: World, hidden: set<Key>, back: set<Key>)
    requires SoundBut(m, w, hidden) && forall k | k in back :: FaithfulAt(m, w, k)
    ensures SoundBut(m, w, hidden - back)
  {
    var few, more := Restrict(w, hidden), Restrict(w, hidden - back);
    forall j | j in more.db.blobs ensures TrueRow(m, w.disk, j, w.db.blobs[j]) {
      if j !in back { assert TrueRow(m, few.disk, j, few.db.blobs[j]); }
    }
    forall b | b in more.db.staged ensures TrueStagedRow(m, w.disk, b, w.db.staged[b]) {
      if b.blob !in back { assert TrueStagedRow(m, few.disk, b, few.db.staged[b]); }
    }
    forall j | j in more.db.committed ensures j in more.db.blobs {
      if j !in back { assert j in few.db.committed.Keys; }
    }
  }

  /** What mends a torn blob: deleting it or its container, committing a block list for
      it, or putting it while its staged rows are true. */
  predicate Mends(m: Md5, w: World, op: Op, k: Key) {
    && PlanOf(m, w, op).reply.Ok?
    && match op
       case DeleteBlob(j) => j == k
       case DeleteContainer(a, c) => k.account == a && k.container == c
       case PutBlockList(j, _, _, _) => j == k
       case PutBlob(j, _, _, _) =>
         j == k && forall b | b in w.db.staged && b.blob == k :: TrueStagedRow(m, w.disk, b, w.db.staged[b])
       case PutBlock(_, _) => false
       case CreateContainer(_, _) => false
  }

  function MendedBy(m: Md5, w: World, e: Event, hidden: set<Key>): set<Key> {
    set k | k in hidden && e.Completed? && Mends(m, w, e.op, k)
  }

  /** What an operation mends comes back in sight. */
  lemma WrittenAgain(m: Md5, w: World, op: Op, hidden: set<Key>)
    requires SoundBut(m, w, hidden) && PlanOf(m, w, op).reply.Ok?
    ensures op.DeleteBlob? || op.PutBlockList? ==> SoundBut(m, Finish(m, w, op), hidden - {op.key})
    ensures op.DeleteContainer? ==>
              SoundBut(m, Finish(m, w, op), set k | k in hidden && !k.In(op.account, op.container))
    ensures op.PutBlob? && (forall b | b in w.db.staged && b.blob == op.key ::
                              TrueStagedRow(m, w.disk, b, w.db.staged[b])) ==>
              SoundBut(m, Finish(m, w, op), hidden - {op.key})
  {
    Mended(m, w, op, hidden);
    var back := MendedBy(m, w, Completed(op), hidden);
    if op.DeleteContainer? {
      assert hidden - back == set k | k in hidden && !k.In(op.account, op.container);
    } else if op.DeleteBlob? || op.PutBlockList? || op.PutBlob? {
      MendsItsKey(m, w, op, hidden);
    }
  }

  lemma MendsItsKey(m: Md5, w: World, op: Op, hidden: set<Key>)
    requires op.DeleteBlob? || op.PutBlockList? || op.PutBlob?
    ensures Mends(m, w, op, op.key) ==> hidden - MendedBy(m, w, Completed(op), hidden) == hidden - {op.key}
  {
    forall k | k in MendedBy(m, w, Completed(op), hidden) ensures k == op.key {
      assert Mends(m, w, op, k);
    }
  }

  lemma Mended(m: Md5, w: World, op: Op, hidden: set<Key>)
    requires SoundBut(m, w, hidden)
    ensures SoundBut(m, Finish(m, w, op), hidden - MendedBy(m, w, Completed(op), hidden))
  {
    var h :| Intact(w, h);
    var w', back := Finish(m, w, op), MendedBy(m, w, Completed(op), hidden);
    var applied := EventRefines(m, w, Completed(op), w', hidden);
    forall k | k in back ensures FaithfulAt(m, w', k) {
      MendedAt(m, w, op, k, h);
    }
    BackInSight(m, w', hidden, back);
  }

  lemma StillSound(m: Md5, w: World, hidden: set<Key>, more: set<Key>)
    requires SoundBut(m, w, hidden) && hidden <= more
    ensures SoundBut(m, w, more)
  {
    var few, fewer := Restrict(w, hidden), Restrict(w, more);
    forall k | k in fewer.db.blobs ensures TrueRow(m, w.disk, k, w.db.blobs[k]) {
      assert TrueRow(m, few.disk, k, few.db.blobs[k]);
    }
    forall b | b in fewer.db.staged ensures TrueStagedRow(m, w.disk, b, w.db.staged[b]) {
      assert TrueStagedRow(m, few.disk, b, few.db.staged[b]);
    }
    forall k | k in fewer.db.committed ensures k in fewer.db.blobs {
      assert k in few.db.committed.Keys;
    }
  }

  lemma MendedAt(m: Md5, w: World, op: Op, k: Key, h: History)
    requires Intact(w, h) && Mends(m, w, op, k)
    ensures FaithfulAt(m, Finish(m, w, op), k)
  {
    match op
    case DeleteBlob(_) =>
      DeleteBlobEffect(m, w, op);
    case DeleteContainer(_, _) =>
      DeleteContainerEffect(m, w, op);
    case PutBlockList(_, refs, headers, _) =>
      PutBlockListEffect(m, w, op, h);
      var rs := ResolveAll(w.db, k, refs).value;
      MendedByCommit(m, w, k, PathsOf(rs), BlocksOf(rs), headers, PartsData(w.disk, PathsOf(rs)), Finish(m, w, op));
    case PutBlob(_, body, _, headers) =>
      PutBlobEffect(m, w, op);
      MendedByPut(m, w, k, body.Data(), headers, Finish(m, w, op), h);
  }

  lemma MendedByCommit(m: Md5, w: World, k: Key, files: seq<FileName>, blocks: seq<Block>, headers: Headers,
                       data: Bytes, w': World)
    requires Assembled(w, k, files, blocks, NewRow(m, k, data, headers), data, w')
    ensures FaithfulAt(m, w', k)
  {
    assert w'.disk.Data(BlobFile(k)) == data;
  }

  lemma MendedByPut(m: Md5, w: World, k: Key, data: Bytes, headers: Headers, w': World, h: History)
    requires FilesComplete(w.disk, h)
    requires w'.db == ApplyDb(w.db, UpsertBlob(k, NewRow(m, k, data, headers)))
    requires Published(w, k.account, BlobFile(k), data, World(w.db, w'.disk))
    requires forall b | b in w.db.staged && b.blob == k :: TrueStagedRow(m, w.disk, b, w.db.staged[b])
    ensures FaithfulAt(m, w', k)
  {
    assert w'.disk.Data(BlobFile(k)) == data;
    KeepData(w.disk, w'.disk, h, {}, w.db.staged.Keys);
    forall b | b in w.db.staged && b.blob == k ensures TrueStagedRow(m, w'.disk, b, w.db.staged[b]) {
      assert SameFile(w.disk, w'.disk, BlockFile(b));
    }
  }

  /** The blobs that are still torn: those a crash tore and nothing mended since. */
  function StillTorn(m: Md5, ws: seq<World>, es: seq<Event>): set<Key>
    requires |ws| == |es| + 1
    decreases |es|
  {
    if es == [] then {}
    else
      var n := |es| - 1;
      var torn := StillTorn(m, ws[..n + 1], es[..n]) + TornBy(m, ws[n], es[n], ws[n + 1]);
      torn - MendedBy(m, ws[n], es[n], torn)
  }

  lemma TornOrMended(m: Md5, w: World, e: Event, w': World, hidden: set<Key>)
    requires SoundBut(m, w, hidden) && Happens(m, w, e, w')
    ensures var torn := hidden + TornBy(m, w, e, w'); SoundBut(m, w', torn - MendedBy(m, w, e, torn))
  {
    var torn := hidden + TornBy(m, w, e, w');
    StillSound(m, w, hidden, torn);
    match e
    case Completed(op) =>
      Mended(m, w, op, torn);
    case Crash(_, _, _) =>
      var applied := EventRefines(m, w, e, w', torn);
      assert torn - MendedBy(m, w, e, torn) == torn;
  }

  /** After every run of a new server, with any operations and any crashes, all blobs are
      sound but those that a crash tore and that were neither written nor deleted
      since. */
  lemma {:induction false} EveryRunMends(m: Md5, ws: seq<World>, es: seq<Event>)
    requires IsRun(m, ws, es)
    ensures SoundBut(m, ws[|es|], StillTorn(m, ws, es))
    decreases |es|
  {
    if es == [] {
      var accounts :| ws[0] == Empty(accounts);
      EmptyInSight(m, accounts, {});
    } else {
      var n := |es| - 1;
      EarlierRun(m, ws, es, ws[..n + 1], es[..n]);
      EveryRunMends(m, ws[..n + 1], es[..n]);
      TornOrMended(m, ws[n], es[n], ws[n + 1], StillTorn(m, ws[..n + 1], es[..n]));
    }
  }

  /** A crash left the blob otherwise than it was, and nothing mended it since. */
  ghost predicate TornAndLeft(m: Md5, ws: seq<World>, es: seq<Event>, i: nat, k: Key)
    requires |ws| == |es| + 1
  {
    && i < |es| && es[i].Crash? && !SameAt(Abstract(ws[i]), Abstract(ws[i + 1]), k)
    && forall j | i < j < |es| && es[j].Completed? :: !Mends(m, ws[j], es[j].op, k)
  }

  /** Only such blobs count as still torn. */
  lemma {:induction false} StillTornMeans(m: Md5, ws: seq<World>, es: seq<Event>, k: Key) returns (i: nat)
    requires IsRun(m, ws, es) && k in StillTorn(m, ws, es)
    ensures TornAndLeft(m, ws, es, i, k)
    decreases |es|
  {
    var n := |es| - 1;
    var before, events := ws[..n + 1], es[..n];
    EarlierRun(m, ws, es, before, events);
    RunIsIntact(m, before, events);
    if k in TornBy(m, ws[n], es[n], ws[n + 1]) {
      TornByShows(m, ws[n], es[n], ws[n + 1], k, Written(before, events));
      i := n;
    } else {
      i := StillTornMeans(m, before, events, k);
      LeftFurther(m, ws, es, before, events, i, k);
    }
  }

  lemma TornByShows(m: Md5, w: World, e: Event, w': World, k: Key, h: History)
    requires Intact(w, h) && Settled(w) && Happens(m, w, e, w') && k in TornBy(m, w, e, w')
    ensures e.Crash? && !SameAt(Abstract(w), Abstract(w'), k)
  {
    TearsShow(m, w, e.op, e.taken, w', k, h);
  }

  lemma LeftFurther(m: Md5, ws: seq<World>, es: seq<Event>, before: seq<World>, events: seq<Event>, i: nat, k: Key)
    requires |ws| == |es| + 1 && es != [] && before == ws[..|es|] && events == es[..|es| - 1]
    requires TornAndLeft(m, before, events, i, k)
    requires es[|es| - 1].Completed? ==> !Mends(m, ws[|es| - 1], es[|es| - 1].op, k)
    ensures TornAndLeft(m, ws, es, i, k)
  {
    assert before[i] == ws[i] && before[i + 1] == ws[i + 1] && events[i] == es[i];
    forall j | i < j < |es| && es[j].Completed? ensures !Mends(m, ws[j], es[j].op, k) {
      if j < |es| - 1 { assert before[j] == ws[j] && events[j] == es[j]; }
    }
  }

  /** So a GET of any other blob delivers what the simple store holds of it. */
  lemma UntornReads(m: Md5, ws: seq<World>, es: seq<Event>, w: World, k: Key, range: Option<(nat, nat)>)
    requires IsRun(m, ws, es) && w == ws[|es|] && k !in StillTorn(m, ws, es)
    requires |DataOf(w.disk, BlobFile(k))| <= U64_MAX
    ensures ReadsAsStored(m, w, k, range)
  {
    EveryRunMends(m, ws, es);
    if k in w.db.blobs { RowInSight(m, w, StillTorn(m, ws, es), k); }
    GetRefines(m, w, k, range);
  }

  lemma RowInSight(m: Md5, w: World, hidden: set<Key>, k: Key)
    requires SoundBut(m, w, hidden) && k !in hidden && k in w.db.blobs
    ensures w.db.blobs[k].path == BlobFile(k) && TrueRow(m, w.disk, k, w.db.blobs[k])
  {
    var few := Restrict(w, hidden);
    assert TrueRow(m, few.disk, k, few.db.blobs[k]);
  }
}
