/**
 The functions of a card and the references they hold on it: what removing one of them, all of
 them and the card does to the lists in memory and to the reference count.
 */
module SdioCisBooks {
  import opened SdioCis
  import opened SdioCisStore

  /** SDIO_MAX_FUNCS */
  const MAX_FUNCS: nat := 7

  /**
   References on the card, card->sdio_func[] and the functions the driver model knows. A nonstandard
   card (MMC_QUIRK_NONSTD_SDIO) has no information structures, neither common nor of functions. Held
   and own say who has a reference, functions and the host; strays were dropped without having been taken.
   */
  datatype Books = Books(nonstd: bool, refs: int, held: set<Owner>, own: bool, strays: nat,
                         slots: set<Owner>, present: set<Owner>)

  datatype State = State(store: Store, infos: map<Owner, Info>, books: Books)

  ghost predicate Sound(st: State) {
    Valid(st.store) && st.infos.Keys == st.store.heads.Keys
  }

  /** With r references on the card: those held, less the strays, of which there are none on a standard card. */
  ghost predicate BooksWith(b: Books, s: Store, r: int) {
    && r == |b.held| + (if b.own then 1 else 0) - b.strays
    && Card !in b.held && b.held <= s.heads.Keys && b.slots <= s.heads.Keys && b.present <= b.slots
    && (forall o :: o in b.slots ==> o.Func? && 1 <= o.num <= MAX_FUNCS)
    && (if b.nonstd then b.held == {} && s.heap == map[] && s.linked == {} else b.slots <= b.held && b.strays == 0)
  }

  /** The card is released by the drop that leaves no reference. */
  ghost predicate Fair(st: State) {
    && Sound(st) && BooksWith(st.books, st.store, st.books.refs)
    && (st.store.gone <==> if st.books.nonstd then st.books.strays > 0 || !st.books.own else st.books.refs == 0)
  }

  /** Before anything has been removed. */
  ghost predicate Attaching(st: State) {
    Fair(st) && st.books.own && st.books.strays == 0
  }

  /** While the host has its reference the card is there, but for references dropped that nobody had taken. */
  lemma GoneEarlyIff(st: State)
    requires Fair(st) && st.books.own
    ensures st.store.gone <==> st.books.nonstd && st.books.strays > 0
  {
  }

  // ----- one function -----

  /** The owner is gone with its own cells and its structure. */
  ghost function FreedState(st: State, o: Owner): State
    requires o in st.store.lists
  {
    State(Freed(st.store, o), if o == Card then st.infos else st.infos - {o}, st.books)
  }

  /** put_device on the card: the last reference releases it. */
  ghost function CardPut(st: State): State
    requires Card in st.store.lists
  {
    var b := st.books.(refs := st.books.refs - 1);
    if b.refs == 0 then FreedState(st, Card).(books := b) else st.(books := b)
  }

  /** The reference that goes with a function: its own if it holds one, and nobody's otherwise. */
  ghost function StruckOff(b: Books, o: Owner): Books {
    if o in b.held then b.(held := b.held - {o}) else b.(strays := b.strays + 1)
  }

  /** The release of a function: its cells go, and a reference whether or not it took one. */
  ghost function FuncReleased(st: State, o: Owner): State
    requires o in st.store.lists && o != Card && Card in st.store.lists
  {
    CardPut(FreedState(st, o).(books := StruckOff(st.books, o)))
  }

  ghost function Unlisted(b: Books, o: Owner): Books {
    b.(slots := b.slots - {o}, present := b.present - {o})
  }

  /** sdio_remove_func: nothing at all for a function that was never added. */
  ghost function FuncRemoved(st: State, o: Owner): State
    requires Fair(st)
  {
    if o !in st.books.present then st else FuncReleased(st.(books := Unlisted(st.books, o)), o)
  }

  lemma FreedSound(st: State, o: Owner)
    requires Sound(st) && o in st.store.lists
    ensures Sound(FreedState(st, o))
    ensures Without(st.store, FreedState(st, o).store, if o == Card then {} else {o})
  {
    FreedValid(st.store, o);
    FreedWithout(st.store, o);
  }

  lemma StruckOffBooks(b: Books, s: Store, o: Owner)
    requires BooksWith(b, s, b.refs) && o !in b.slots && (b.nonstd || o in b.held)
    ensures BooksWith(StruckOff(b, o), s, b.refs - 1) && o !in StruckOff(b, o).held
    ensures StruckOff(b, o) == b.(held := b.held - {o}, strays := b.strays + (if b.nonstd then 1 else 0))
  {
  }

  lemma FreedBooks(b: Books, s: Store, o: Owner, r: int)
    requires BooksWith(b, s, r) && o in s.lists && Shape(s) && (o == Card || (o !in b.slots && o !in b.held))
    ensures BooksWith(b, Freed(s, o), r)
  {
    if b.nonstd {
      assert s.heap - Cells(s.lists[o]) == map[];
    }
  }

  lemma CardPutSound(st: State, r: int)
    requires Sound(st) && r == st.books.refs - 1 && BooksWith(st.books, st.store, r)
    ensures Sound(CardPut(st)) && BooksWith(CardPut(st).books, CardPut(st).store, r)
    ensures CardPut(st).store.gone == (st.store.gone || r == 0) && Without(st.store, CardPut(st).store, {})
  {
    FreedSound(st, Card);
    FreedBooks(st.books, st.store, Card, r);
  }

  lemma FuncReleasedFair(st: State, o: Owner)
    requires Fair(st) && o in st.store.heads && o !in st.books.slots && o != Card && (st.books.nonstd || o in st.books.held)
    ensures Fair(FuncReleased(st, o)) && Without(st.store, FuncReleased(st, o).store, {o})
    ensures FuncReleased(st, o).books
         == st.books.(refs := st.books.refs - 1, held := st.books.held - {o},
                      strays := st.books.strays + (if st.books.nonstd then 1 else 0))
  {
    var mid := FreedState(st, o).(books := StruckOff(st.books, o));
    FreedSound(st, o);
    StruckOffBooks(st.books, st.store, o);
    FreedBooks(mid.books, st.store, o, st.books.refs - 1);
    CardPutSound(mid, st.books.refs - 1);
    WithoutMore(st.store, mid.store, CardPut(mid).store, {o}, {});
  }

  /** The books after sdio_remove_func, with the slot cleared. */
  ghost function Crossed(b: Books, o: Owner): Books {
    if o in b.present then
      b.(refs := b.refs - 1, held := b.held - {o}, slots := b.slots - {o}, present := b.present - {o},
         strays := b.strays + (if b.nonstd then 1 else 0))
    else b.(slots := b.slots - {o})
  }

  lemma FuncRemovedFair(st: State, o: Owner)
    requires Fair(st)
    ensures Fair(FuncRemoved(st, o)) && Without(st.store, FuncRemoved(st, o).store, st.books.present * {o})
    ensures o in st.books.present ==> FuncRemoved(st, o).books == Crossed(st.books, o)
  {
    if o in st.books.present {
      FuncReleasedFair(st.(books := Unlisted(st.books, o)), o);
      assert st.books.present * {o} == {o};
    } else {
      assert st.books.present * {o} == {};
    }
  }

  // ----- the whole card -----

  /** The functions 1 to n. */
  function Funcs(n: nat): set<Owner> {
    set k | 1 <= k <= n :: Func(k)
  }

  lemma FuncsNext(n: nat)
    ensures Funcs(n + 1) == Funcs(n) + {Func(n + 1)} && Func(n + 1) !in Funcs(n) && Card !in Funcs(n)
    ensures Funcs(0) == {} && (n > 0 ==> Func(n) in Funcs(n))
  {
  }

  ghost function SlotCleared(st: State, o: Owner): State {
    st.(books := st.books.(slots := st.books.slots - {o}))
  }

  lemma SlotClearedFair(st: State, o: Owner)
    requires Fair(st)
    ensures Fair(FuncRemoved(st, o)) && Fair(SlotCleared(FuncRemoved(st, o), o))
    ensures SlotCleared(FuncRemoved(st, o), o).books == Crossed(st.books, o)
  {
    FuncRemovedFair(st, o);
    assert o in st.books.present ==> st.books.slots - {o} - {o} == st.books.slots - {o};
  }

  /** The first n rounds of mmc_sdio_remove; a slot without a function is NULL. */
  ghost function RemovedUpTo(st: State, n: nat): (r: State)
    requires Fair(st)
    ensures Fair(r)
  {
    if n == 0 then st
    else
      SlotClearedFair(RemovedUpTo(st, n - 1), Func(n));
      SlotCleared(FuncRemoved(RemovedUpTo(st, n - 1), Func(n)), Func(n))
  }

  lemma RemovedNext(st: State, n: nat)
    requires Fair(st)
    ensures RemovedUpTo(st, n + 1) == SlotCleared(FuncRemoved(RemovedUpTo(st, n), Func(n + 1)), Func(n + 1))
  {
  }

  /** The host's own reference. */
  ghost function OwnDropped(st: State): State
    requires Card in st.store.lists
  {
    CardPut(st.(books := st.books.(own := false)))
  }

  /** mmc_sdio_remove */
  ghost function CardRemoved(st: State): State
    requires Fair(st)
  {
    OwnDropped(RemovedUpTo(st, MAX_FUNCS))
  }

  /** The functions up to n that were added. */
  ghost function Added(b: Books, n: nat): set<Owner> {
    b.present * Funcs(n)
  }

  /** What has become of the books in n rounds. */
  ghost predicate Through(b: Books, b': Books, n: nat) {
    && b'.nonstd == b.nonstd && b'.own == b.own && b'.slots == b.slots - Funcs(n)
    && b'.present == b.present - Added(b, n) && b'.held == b.held - Added(b, n)
    && b'.strays == b.strays + if b.nonstd then |Added(b, n)| else 0
  }

  lemma AddedNext(b: Books, n: nat)
    ensures Added(b, n + 1) == Added(b, n) + (b.present * {Func(n + 1)})
    ensures Func(n + 1) !in b.present ==> Added(b, n + 1) == Added(b, n)
    ensures Func(n + 1) in b.present ==> Added(b, n + 1) == Added(b, n) + {Func(n + 1)} && |Added(b, n + 1)| == |Added(b, n)| + 1
    ensures Func(n + 1) !in Added(b, n)
  {
    FuncsNext(n);
  }

  lemma ThroughNext(b: Books, b': Books, n: nat)
    requires Through(b, b', n)
    ensures Through(b, Crossed(b', Func(n + 1)), n + 1)
    ensures b'.present * {Func(n + 1)} == b.present * {Func(n + 1)}
  {
    FuncsNext(n);
    AddedNext(b, n);
  }

  lemma {:induction false} RemovedUpToExact(st: State, n: nat)
    requires Fair(st)
    ensures Through(st.books, RemovedUpTo(st, n).books, n)
    ensures Without(st.store, RemovedUpTo(st, n).store, Added(st.books, n))
  {
    if n == 0 {
      FuncsNext(0);
      assert Added(st.books, 0) == {};
    } else {
      RemovedUpToExact(st, n - 1);
      RemovedOneMore(st, RemovedUpTo(st, n - 1), n - 1);
    }
  }

  lemma RemovedOneMore(st: State, mid: State, n: nat)
    requires Fair(mid) && Through(st.books, mid.books, n) && Without(st.store, mid.store, Added(st.books, n))
    ensures var st' := SlotCleared(FuncRemoved(mid, Func(n + 1)), Func(n + 1));
            Through(st.books, st'.books, n + 1) && Without(st.store, st'.store, Added(st.books, n + 1))
  {
    var o := Func(n + 1);
    FuncRemovedFair(mid, o);
    SlotClearedFair(mid, o);
    ThroughNext(st.books, mid.books, n);
    AddedNext(st.books, n);
    WithoutMore(st.store, mid.store, FuncRemoved(mid, o).store, Added(st.books, n), mid.books.present * {o});
  }

  lemma AllFuncs(s: set<Owner>)
    requires forall o :: o in s ==> o.Func? && 1 <= o.num <= MAX_FUNCS
    ensures s * Funcs(MAX_FUNCS) == s && s - Funcs(MAX_FUNCS) == {}
  {
    assert forall o :: o in s ==> o == Func(o.num) && o in Funcs(MAX_FUNCS);
  }

  /** The slots are all gone through: exactly the functions that were added are gone. */
  lemma RemovedAllExact(st: State)
    requires Fair(st)
    ensures var b, b', s' := st.books, RemovedUpTo(st, MAX_FUNCS).books, RemovedUpTo(st, MAX_FUNCS).store;
            && b'.nonstd == b.nonstd && b'.own == b.own && b'.slots == {} && b'.present == {}
            && b'.held == b.held - b.present && b'.strays == b.strays + (if b.nonstd then |b.present| else 0)
            && Without(st.store, s', b.present)
  {
    RemovedUpToExact(st, MAX_FUNCS);
    AllFuncs(st.books.slots);
    AllFuncs(st.books.present);
    assert st.books.present - st.books.present == {};
  }

  lemma OwnDroppedFair(st: State)
    requires Fair(st) && st.books.own && st.books.slots == {}
    ensures Fair(OwnDropped(st)) && Without(st.store, OwnDropped(st).store, {})
    ensures OwnDropped(st).books == st.books.(own := false, refs := st.books.refs - 1)
    ensures OwnDropped(st).store.gone <==> st.books.nonstd || st.books.held == {}
  {
    var mid := st.(books := st.books.(own := false));
    CardPutSound(mid, st.books.refs - 1);
  }

  lemma AllGoneIff(all: set<Owner>, x: set<Owner>)
    ensures all - x == {} <==> all <= x
  {
    assert forall o :: o in all && o !in x ==> o in all - x;
  }

  /** Neither a tuple nor the structure of a function nor the card itself. */
  ghost predicate NothingLeft(s: Store) {
    s.heads.Keys == {Card} && s.heap == map[] && s.gone
  }

  lemma CardRemovedFair(st: State)
    requires Fair(st) && st.books.own
    ensures var st', b := CardRemoved(st), st.books;
            && Fair(st') && !st'.books.own && st'.books.slots == {} && st'.books.present == {}
            && st'.books.strays == b.strays + (if b.nonstd then |b.present| else 0)
            && Without(st.store, st'.store, b.present) && (st'.store.gone <==> b.nonstd || b.held <= b.present)
  {
    RemovedAllExact(st);
    var mid := RemovedUpTo(st, MAX_FUNCS);
    OwnDroppedFair(mid);
    AllGoneIff(st.books.held, st.books.present);
    WithoutMore(st.store, mid.store, OwnDropped(mid).store, st.books.present, {});
    assert st.books.present + {} == st.books.present;
  }

  /**
   Removing the card: just the functions that were added go, and the card when no other holds a
   reference. What was allocated is all gone if and only if every function had been added.
   */
  lemma CardRemovedExact(st: State)
    requires Attaching(st)
    ensures var s, s', b := st.store, CardRemoved(st).store, st.books;
            && s'.heads.Keys == s.heads.Keys - b.present && (s'.gone <==> b.nonstd || b.held <= b.present)
            && (s'.heap == map[] <==>
                  && (s'.gone || s.lists[Card] == [])
                  && forall o :: o in s.lists && o !in b.present && o != Card ==> s.lists[o] == [])
            && (NothingLeft(s') <==> s.heads.Keys <= b.present + {Card})
  {
    CardRemovedFair(st);
    GoneEarlyIff(st);
    LeftBehind(st.store, CardRemoved(st).store, st.books.present);
    NothingBehind(st.store, CardRemoved(st).store, st.books.present);
  }

  /**
   On a nonstandard card every function removed drops a reference that was never taken, and the card
   goes with the first of them, while the host still has its own reference and is yet to drop it.
   */
  lemma CardGoesEarlyIff(st: State, n: nat)
    requires Attaching(st)
    ensures var mid := RemovedUpTo(st, n);
            && mid.books.own && (mid.store.gone <==> st.books.nonstd && Added(st.books, n) != {})
            && mid.books.strays == if st.books.nonstd then |Added(st.books, n)| else 0
  {
    RemovedUpToExact(st, n);
    GoneEarlyIff(RemovedUpTo(st, n));
  }

  // ----- setting up -----

  /** A zeroed function structure. */
  ghost function Allocated(st: State, o: Owner, blank: Info): State {
    State(st.store.(heads := st.store.heads[o := NULL], lists := st.store.lists[o := []]), st.infos[o := blank], st.books)
  }

  lemma AllocatedKeeps(st: State, o: Owner, blank: Info)
    requires Attaching(st) && o !in st.store.heads
    ensures Attaching(Allocated(st, o, blank)) && o !in st.books.slots && o !in st.books.held
  {
    NewOwner(st.store, o);
  }

  /** Reading the list of a function leaves the books in order. */
  lemma ReadKeeps(st: State, st': State, o: Owner)
    requires Attaching(st) && !st.books.nonstd
    requires Sound(st') && OnlyList(st.store, st'.store, o) && st'.books == st.books
    ensures Attaching(st')
  {
  }

  ghost function Held(b: Books, o: Owner): Books {
    b.(refs := b.refs + 1, held := b.held + {o})
  }

  lemma HeldKeeps(st: State, o: Owner)
    requires Attaching(st) && !st.books.nonstd && o in st.store.heads && o != Card && o !in st.books.held
    ensures Attaching(st.(books := Held(st.books, o)))
  {
  }

  lemma InfoKeeps(st: State, o: Owner, info: Info)
    requires Attaching(st) && o in st.store.heads
    ensures Attaching(st.(infos := st.infos[o := info]))
  {
  }

  /** After filling in a function: it holds a reference where its own structures were read. */
  ghost function SetUpBooks(b: Books, o: Owner, ret: int): Books {
    if ret == 0 && !b.nonstd then Held(b, o) else b
  }

  /** After sdio_init_func: a function that was set up is recorded. */
  ghost function InitBooks(b: Books, o: Owner, ret: int): Books {
    if ret == 0 then SetUpBooks(b, o, ret).(slots := b.slots + {o}) else b
  }

  lemma RecordedKeeps(st: State, b: Books, n: nat)
    requires 1 <= n <= MAX_FUNCS && Func(n) in st.store.heads
    requires Attaching(st) && st.books == SetUpBooks(b, Func(n), 0)
    ensures Attaching(st.(books := InitBooks(b, Func(n), 0)))
  {
  }

  /** One more function, with a list of its own; the other lists are as they were. */
  ghost predicate FuncAdded(s: Store, s': Store, o: Owner) {
    s'.heads.Keys == s.heads.Keys + {o} && o in s'.lists && s'.lists == s.lists[o := s'.lists[o]]
  }

  lemma AllocatedOnly(st: State, s': Store, o: Owner, blank: Info)
    requires OnlyList(Allocated(st, o, blank).store, s', o)
    ensures FuncAdded(st.store, s', o)
  {
  }

  lemma OnlyListRefl(s: Store, o: Owner)
    ensures OnlyList(s, s, o)
  {
  }

  ghost function AddedBooks(b: Books, o: Owner): Books {
    b.(present := b.present + {o})
  }

  lemma AddedKeeps(st: State, o: Owner)
    requires Attaching(st) && o in st.books.slots
    ensures Attaching(st.(books := AddedBooks(st.books, o)))
  {
  }

  /** Before any function has been set up. */
  ghost predicate Bare(st: State) {
    Attaching(st) && st.store.heads.Keys == {Card}
  }

  /** The first n functions are set up and none has been added. */
  ghost predicate Ready(st: State, n: nat) {
    Attaching(st) && st.store.heads.Keys == {Card} + Funcs(n) && st.books.slots == Funcs(n) && st.books.present == {}
  }

  /** A function could not be set up, and none has been added; bare if none was even allocated. */
  ghost predicate Stuck(st: State, bare: bool) {
    Attaching(st) && st.books.present == {} && (st.store.heads.Keys == {Card} <==> bare)
  }

  lemma BareReady(st: State)
    requires Bare(st)
    ensures Ready(st, 0)
  {
    assert forall o :: o in st.books.slots ==> o in st.store.heads.Keys;
    assert Funcs(0) == {};
  }

  lemma ReadyNext(st: State, st': State, n: nat, ret: int)
    requires Ready(st, n) && n < MAX_FUNCS && Attaching(st') && FuncAdded(st.store, st'.store, Func(n + 1))
    requires st'.books == InitBooks(st.books, Func(n + 1), ret)
    ensures if ret == 0 then Ready(st', n + 1) else Stuck(st', false)
  {
    FuncsNext(n);
    assert Func(n + 1) in st'.store.heads.Keys;
  }

  lemma ReadyStuck(st: State, n: nat)
    requires Ready(st, n)
    ensures Stuck(st, n == 0)
  {
    if n > 0 {
      FuncsNext(n);
      assert Func(n) in st.store.heads.Keys;
    } else {
      FuncsNext(0);
    }
  }

  /** What the release of a function needs on its way. */
  lemma FuncReleasedReady(st: State, o: Owner)
    requires Fair(st) && o in st.store.heads && o !in st.books.slots && o != Card && (st.books.nonstd || o in st.books.held)
    ensures !(st.store.gone && o in st.store.linked)
    ensures var mid := FreedState(st, o).(books := StruckOff(st.books, o));
            Sound(mid) && BooksWith(mid.books, mid.store, mid.books.refs - 1) && (mid.books.refs == 1 ==> !mid.store.gone)
  {
    FreedSound(st, o);
    StruckOffBooks(st.books, st.store, o);
    FreedBooks(StruckOff(st.books, o), st.store, o, st.books.refs - 1);
  }

  /** And the host's own drop after all functions. */
  lemma OwnDropReady(st: State)
    requires Fair(st) && st.books.own
    ensures var all := RemovedUpTo(st, MAX_FUNCS);
            var mid := all.(books := all.books.(own := false));
            Sound(mid) && BooksWith(mid.books, mid.store, mid.books.refs - 1) && (mid.books.refs == 1 ==> !mid.store.gone)
  {
    RemovedAllExact(st);
  }

  lemma CardGoesEarly(st: State)
    requires Attaching(st)
    ensures RemovedUpTo(st, MAX_FUNCS).store.gone <==> st.books.nonstd && st.books.present != {}
  {
    CardGoesEarlyIff(st, MAX_FUNCS);
    AllFuncs(st.books.present);
  }

  lemma NotPresent(st: State, o: Owner)
    requires Fair(st) && o !in st.store.heads
    ensures o !in st.books.present && o !in st.books.slots
  {
  }

  lemma StuckKeys(st: State, bare: bool)
    requires Stuck(st, bare)
    ensures st.store.heads.Keys <= st.books.present + {Card} <==> bare
  {
  }
}
