/**
 The tuple lists of one card in use: sdio_read_cis builds them, functions come and go, and the
 references they hold on the card decide when the common list is freed.
 */
module SdioCisCard {
  import opened Basics
  import opened Bits
  import opened SdioCis
  import opened SdioCisParse
  import opened SdioCisStore
  import opened SdioCisBooks

  lemma UpdatedTwice(m: map<Owner, Info>, o: Owner, x: Info, y: Info)
    ensures m[o := x][o := y] == m[o := y]
  {
  }

  lemma SameInfo(m: map<Owner, Info>, o: Owner)
    requires o in m
    ensures m == m[o := m[o]]
  {
  }

  lemma QueuedNext(before: seq<Tuple>, t: Tuple, rest: Walk)
    ensures var next := rest.(queued := [t] + rest.queued);
            next.(queued := before + next.queued) == rest.(queued := (before + [t]) + rest.queued)
  {
    assert before + ([t] + rest.queued) == (before + [t]) + rest.queued;
  }

  datatype Found = Ended(ret: int, link: bool) | Skipped | Read(code: Byte, data: seq<Byte>)

  /** How a round of the loop ends: go on, leave it, or return at once. */
  datatype Exit = More | Break | NoMemory

  /** What becomes of one function: memory for it, the result of reading its basic registers, and of adding it. */
  datatype Answer = Answer(memory: bool, fbr: int, add: int)

  /** The owner's list is being built: it ends in NULL, in the place prev points to. */
  ghost predicate Building(st: State, owner: Owner, prev: Ptr) {
    Sound(st) && owner in st.store.heads && Open(st.store, owner) && prev == Last(st.store.lists[owner])
  }

  /**
   In the middle of the walk: from store s and infos was, only the owner's list has changed, and
   the list so far with the rest of the walk makes up the whole walk.
   */
  ghost predicate Walking(s: Store, was: map<Owner, Info>, whole: Walk, st: State, owner: Owner, prev: Ptr, rest: Walk) {
    && Building(st, owner, prev) && OnlyList(s, st.store, owner) && st.infos == was[owner := st.infos[owner]]
    && whole == rest.(queued := Contents(st.store, owner) + rest.queued)
  }

  /** A tuple was put at the end of the list. */
  ghost predicate Queued(st: State, st': State, owner: Owner, tuple: Tuple, last: Ptr) {
    && Building(st', owner, last) && OnlyList(st.store, st'.store, owner) && st'.infos == st.infos
    && Sound(st) && owner in st.store.heads
    && Contents(st'.store, owner) == Contents(st.store, owner) + [tuple]
  }

  lemma WalkQueued(s: Store, was: map<Owner, Info>, whole: Walk, st: State, st': State, owner: Owner, prev: Ptr, last: Ptr,
                   tuple: Tuple, rest: Walk)
    requires Walking(s, was, whole, st, owner, prev, rest.(queued := [tuple] + rest.queued))
    requires Queued(st, st', owner, tuple, last)
    ensures Walking(s, was, whole, st', owner, last, rest)
  {
    QueuedNext(Contents(st.store, owner), tuple, rest);
    OnlyListAgain(s, st.store, st'.store, owner);
  }

  lemma WalkLearned(s: Store, was: map<Owner, Info>, whole: Walk, st: State, owner: Owner, prev: Ptr, rest: Walk, info: Info)
    requires Walking(s, was, whole, st, owner, prev, rest)
    ensures Walking(s, was, whole, st.(infos := st.infos[owner := info]), owner, prev, rest)
  {
    UpdatedTwice(was, owner, st.infos[owner], info);
  }

  lemma WalkStart(st: State, owner: Owner, whole: Walk)
    requires Sound(st) && !st.store.gone && owner in st.store.heads && st.store.heads[owner] == NULL
    ensures Walking(st.store, st.infos, whole, st, owner, NULL, whole)
  {
    HeadNull(st.store, owner);
    OnlyListRefl(st.store, owner);
    SameInfo(st.infos, owner);
    assert [] + whole.queued == whole.queued;
  }

  /** What the walk has made of the list when it is over, before the common tuples are linked in. */
  lemma WalkOver(s: Store, was: map<Owner, Info>, whole: Walk, st: State, owner: Owner, prev: Ptr, ret: int, link: bool)
    requires owner in st.infos && Walking(s, was, whole, st, owner, prev, Walk([], ret, link, st.infos[owner]))
    ensures ret == whole.ret && link == whole.link && Contents(st.store, owner) == whole.queued
    ensures st.infos == was[owner := whole.info] && OnlyList(s, st.store, owner) && owner !in st.store.linked
  {
    assert Contents(st.store, owner) + [] == Contents(st.store, owner);
  }

  /** A card with its functions; the ghost fields say which cells are whose and who holds a reference (Store, Books). */
  class Cis {
    const env: Env
    const nonstd: bool
    var heap: Heap
    var heads: map<Owner, Ptr>
    var infos: map<Owner, Info>
    var refs: int
    var released: bool
    var slots: set<Owner>
    var present: set<Owner>
    ghost var lists: map<Owner, seq<Ptr>>
    ghost var linked: set<Owner>
    ghost var homes: map<Ptr, Owner>
    ghost var root: Ptr
    ghost var held: set<Owner>
    ghost var own: bool
    ghost var strays: nat

    ghost function Now(): State
      reads this
    {
      State(Store(heap, heads, lists, linked, homes, root, released), infos,
            Books(nonstd, refs, held, own, strays, slots, present))
    }

    constructor (env: Env, blank: Info, nonstd: bool)
      ensures Attaching(Now()) && this.env == env && this.nonstd == nonstd
      ensures heap == map[] && heads == map[Card := NULL] && infos == map[Card := blank]
      ensures held == {} && slots == {} && present == {} && lists == map[Card := []]
    {
      this.env, this.nonstd := env, nonstd;
      heap, homes, linked, root, released := map[], map[], {}, NULL, false;
      heads, infos, lists := map[Card := NULL], map[Card := blank], map[Card := []];
      refs, held, own, strays, slots, present := 1, {}, true, 0, {}, {};
    }

    /** The pointer to the chain, byte by byte. */
    method ReadPointer(owner: Owner) returns (start: Start)
      ensures start == CisStart(env, CisRegister(owner), 3)
    {
      var ptr: nat := 0;
      for i := 0 to 3
        invariant ptr < Pow2(8 * i) && CisStart(env, CisRegister(owner), i) == At(ptr)
      {
        match Direct(env, CisRegister(owner) + i)
        case Fail(e) =>
          NoStartStays(env, CisRegister(owner), i + 1, 3, e);
          return NoStart(e);
        case Got(x) =>
          PointerByte(ptr, x, 8 * i);
          ptr := Or(ptr, Shl(x, 8 * i));
      }
      start := At(ptr);
    }

    /** The data loop: byte by byte, up to the first error. */
    method ReadBody(at: nat, n: nat) returns (d: Data)
      ensures d == ReadData(env, at, n)
    {
      var bytes: seq<Byte> := [];
      while |bytes| < n
        invariant |bytes| <= n
        invariant ReadData(env, at, n) == match ReadData(env, at + |bytes|, n - |bytes|)
                                          case NoData(e) => NoData(e)
                                          case Bytes(rest) => Bytes(bytes + rest)
        decreases n - |bytes|
      {
        match Direct(env, at + |bytes|)
        case Fail(e) => return NoData(e);
        case Got(b) => bytes := bytes + [b];
      }
      d := Bytes(bytes);
    }

    /** this->next = NULL; *prev = this; prev = &this->next */
    method PutLast(owner: Owner, prev: Ptr, last: Ptr, tuple: Tuple)
      requires owner in lists && owner in heads && last !in heap && prev == Last(lists[owner])
      requires if lists[owner] == [] then prev == NULL else prev != NULL && prev in heap
      modifies `heap, `heads, `lists, `homes, `root
      ensures Now().store == Append(old(Now().store), owner, last, tuple)
    {
      heap := heap[last := Cell(NULL, tuple)];
      if prev == NULL {
        heads := heads[owner := last];
        root := if owner == Card then last else root;
      } else {
        heap := heap[prev := heap[prev].(next := last)];
      }
      lists, homes := lists[owner := lists[owner] + [last]], homes[last := owner];
    }

    /** A tuple goes to the end of the list, in memory not in use. */
    method QueueTuple(owner: Owner, prev: Ptr, tuple: Tuple) returns (last: Ptr)
      requires Building(Now(), owner, prev)
      modifies `heap, `heads, `lists, `homes, `root
      ensures Queued(old(Now()), Now(), owner, tuple, last)
    {
      last := NewAddress();
      AppendStep(Now().store, owner, last, tuple);
      PutLast(owner, prev, last, tuple);
    }

    method NewAddress() returns (p: Ptr)
      ensures p != NULL && p !in heap
    {
      ghost var bound := Beyond(heap.Keys);
      assert bound + 1 != NULL && bound + 1 !in heap;
      p :| p != NULL && p !in heap;
    }

    /** What is still to come of the walk. */
    ghost function Rest(owner: Owner, ptr: nat, exit: Exit, ret: int, info: Info): Walk {
      match exit
      case More => Chain(env, owner, ptr, info)
      case Break => Walk([], ret, true, info)
      case NoMemory => Walk([], ret, false, info)
    }

    /** What the walk makes of a tuple that was read, with its data. */
    ghost function AfterTuple(owner: Owner, at: nat, code: Byte, data: seq<Byte>, info: Info): Walk {
      var ret := Verdict(env, owner, at, code, data);
      if ret == EILSEQ || ret == ENOENT then
        var rest := Chain(env, owner, at + 2 + |data|, info);
        rest.(queued := [Tuple(code, data)] + rest.queued)
      else if ret == 0 then Chain(env, owner, at + 2 + |data|, Learn(env, owner, at, code, data, info))
      else Walk([], ret, true, info)
    }

    /** The reading half of a round of the do loop. */
    method FetchTuple(owner: Owner, at: nat, ghost info: Info) returns (found: Found)
      ensures var w := Chain(env, owner, at, info);
              match found
              case Ended(ret, link) => w == Walk([], ret, link, info)
              case Skipped => at <= 0x1FFFF && w == Chain(env, owner, at + 1, info)
              case Read(code, data) => at <= 0x1FFFF && w == AfterTuple(owner, at, code, data, info)
    {
      var code, size: Byte;
      match Direct(env, at) {
        case Fail(e) => return Ended(e, true);
        case Got(b) => code := b;
      }
      if code == 0xff {
        return Ended(0, true);
      }
      if code == 0x00 {
        return Skipped;
      }
      match Direct(env, at + 1) {
        case Fail(e) => return Ended(e, true);
        case Got(b) => size := b;
      }
      if size == 0xff {
        return Ended(0, true);
      }
      if !env.kmalloc(at) {
        return Ended(ENOMEM, false);
      }
      var body := ReadBody(at + 2, size);
      match body
      case NoData(e) => return Ended(e, true);
      case Bytes(data) => return Read(code, data);
    }

    /** The other half: parse the tuple, queue it if it was not parsed. */
    method TakeTuple(owner: Owner, at: nat, prev0: Ptr, code: Byte, data: seq<Byte>,
                     ghost s: Store, ghost was: map<Owner, Info>, ghost whole: Walk)
      returns (prev: Ptr, ret: int)
      requires owner in infos
      requires Walking(s, was, whole, Now(), owner, prev0, AfterTuple(owner, at, code, data, infos[owner]))
      modifies `heap, `heads, `lists, `homes, `root, `infos
      ensures owner in infos
      ensures Walking(s, was, whole, Now(), owner, prev,
                      Rest(owner, at + 2 + |data|, if ret == 0 then More else Break, ret, infos[owner]))
    {
      ghost var st := Now();
      var info: Info;
      ret, info := ParseTuple(env, owner, at, code, data, infos[owner]);
      if ret == EILSEQ || ret == ENOENT {
        prev := QueueTuple(owner, prev0, Tuple(code, data));
        WalkQueued(s, was, whole, st, Now(), owner, prev0, prev, Tuple(code, data),
                   Chain(env, owner, at + 2 + |data|, infos[owner]));
        return prev, 0;
      }
      prev := prev0;
      WalkLearned(s, was, whole, st, owner, prev, AfterTuple(owner, at, code, data, infos[owner]), info);
      infos := infos[owner := info];
    }

    /** One round of the do loop. */
    method ReadTuple(owner: Owner, ptr0: nat, prev0: Ptr, ghost s: Store, ghost was: map<Owner, Info>, ghost whole: Walk)
      returns (ptr: nat, prev: Ptr, exit: Exit, ret: int)
      requires owner in infos
      requires Walking(s, was, whole, Now(), owner, prev0, Rest(owner, ptr0, More, 0, infos[owner]))
      modifies `heap, `heads, `lists, `homes, `root, `infos
      ensures owner in infos && Walking(s, was, whole, Now(), owner, prev, Rest(owner, ptr, exit, ret, infos[owner]))
      ensures exit.More? ==> ptr0 <= 0x1FFFF && ptr > ptr0
    {
      ptr, prev, exit, ret := ptr0, prev0, Break, 0;
      var found := FetchTuple(owner, ptr0, infos[owner]);
      match found
      case Ended(r, link) =>
        ret := r;
        exit := if link then Break else NoMemory;
      case Skipped =>
        ptr := ptr0 + 1;
        exit := More;
      case Read(code, data) =>
        prev, ret := TakeTuple(owner, ptr0, prev0, code, data, s, was, whole);
        ptr := ptr0 + 2 + |data|;
        exit := if ret == 0 then More else Break;
    }

    /** The do loop. */
    method WalkChain(owner: Owner, ptr0: nat) returns (prev: Ptr, exit: Exit, ret: int)
      requires Sound(Now()) && !released && owner in heads && heads[owner] == NULL
      modifies `heap, `heads, `lists, `homes, `root, `infos
      ensures owner in infos && !exit.More?
      ensures Walking(old(Now().store), old(infos), Chain(env, owner, ptr0, old(infos[owner])), Now(), owner, prev,
                      Rest(owner, ptr0, exit, ret, infos[owner]))
    {
      var ptr := ptr0;
      prev, exit, ret := NULL, More, 0;
      ghost var s, was, whole := Now().store, infos, Chain(env, owner, ptr, infos[owner]);
      WalkStart(Now(), owner, whole);
      while exit.More?
        invariant owner in infos && Walking(s, was, whole, Now(), owner, prev, Rest(owner, ptr, exit, ret, infos[owner]))
        decreases exit.More?, 0x20000 - Min(ptr, 0x20000)
      {
        ptr, prev, exit, ret := ReadTuple(owner, ptr, prev, s, was, whole);
      }
    }

    /** *prev = card->tuples */
    method LinkTail(owner: Owner, prev: Ptr)
      requires Building(Now(), owner, prev) && owner != Card
      modifies `heap, `heads, `linked
      ensures Now() == old(Now()).(store := Link(old(Now().store), owner)) && Sound(Now())
      ensures OnlyList(old(Now().store), Now().store, owner) && (owner in linked <==> heads[Card] != NULL)
      ensures Contents(Now().store, owner) == old(Contents(Now().store, owner))
    {
      ghost var s := Now().store;
      LinkStep(s, owner);
      if prev == NULL {
        heads := heads[owner := heads[Card]];
      } else {
        heap := heap[prev := heap[prev].(next := heads[Card])];
      }
      linked := if heads[Card] == NULL then linked else linked + {owner};
      assert Now().store == Link(s, owner);
    }

    /** The walk, with the common tuples linked in on every exit but the allocation failure. */
    method BuildList(owner: Owner, ptr: nat) returns (ret: int)
      requires Sound(Now()) && owner in heads && !released && heads[owner] == NULL
      modifies `heap, `heads, `lists, `homes, `root, `infos, `linked
      ensures Sound(Now()) && OnlyList(old(Now().store), Now().store, owner)
      ensures var w := Chain(env, owner, ptr, old(infos[owner]));
              && ret == w.ret && Contents(Now().store, owner) == w.queued && infos == old(infos)[owner := w.info]
              && (owner in linked <==> owner != Card && w.link && heads[Card] != NULL)
    {
      ghost var s, was, whole := Now().store, infos, Chain(env, owner, ptr, infos[owner]);
      var prev, exit;
      prev, exit, ret := WalkChain(owner, ptr);
      ghost var mid := Now().store;
      WalkOver(s, was, whole, Now(), owner, prev, ret, exit.Break?);
      if exit.Break? && owner != Card {
        LinkTail(owner, prev);
        OnlyListAgain(s, mid, Now().store, owner);
      }
    }

    /**
     sdio_read_cis: the owner's list becomes just the tuples the walk queues, followed by the card's
     list for a function; nothing else in memory changes.
     */
    method ReadCis(owner: Owner) returns (ret: int)
      requires Sound(Now()) && owner in heads && !released
      modifies `heap, `heads, `lists, `homes, `root, `infos, `linked
      ensures Sound(Now()) && OnlyList(old(Now().store), Now().store, owner)
      ensures match CisStart(env, CisRegister(owner), 3)
              case NoStart(e) => ret == e && Now() == old(Now())
              case At(ptr) =>
                if old(heads[owner]) != NULL then ret == EINVAL && Now() == old(Now())
                else
                  var w := Chain(env, owner, ptr, old(infos[owner]));
                  && ret == w.ret && Contents(Now().store, owner) == w.queued && infos == old(infos)[owner := w.info]
                  && (owner in linked <==> owner != Card && w.link && heads[Card] != NULL)
    {
      OnlyListRefl(Now().store, owner);
      var start := ReadPointer(owner);
      if start.NoStart? {
        return start.err;
      }
      if heads[owner] != NULL {
        return EINVAL;
      }
      ret := BuildList(owner, start.ptr);
    }

    // ----- freeing -----

    /** The freeing loops themselves. */
    method FreeList(first: Ptr, stop: Ptr)
      requires FreeLoop(heap, first, stop).Some?
      modifies `heap
      ensures heap == old(FreeLoop(heap, first, stop).value.0)
    {
      ghost var end := FreeLoop(heap, first, stop).value.0;
      var tuple := first;
      while tuple != NULL && tuple != stop
        modifies `heap
        invariant FreeLoop(heap, tuple, stop).Some? && FreeLoop(heap, tuple, stop).value.0 == end
        decreases heap.Keys
      {
        var victim := tuple;
        tuple := heap[tuple].next;
        heap := heap - {victim};
      }
    }

    /**
     Every cell of the owner's own goes, and the loop never looks at one that is gone, unless it would
     run on into the list of a card that has been released.
     */
    method FreeCells(owner: Owner)
      requires Sound(Now()) && owner in heads && !(released && owner in linked)
      modifies `heap, `heads, `lists, `homes, `linked, `infos, `released
      ensures Now() == FreedState(old(Now()), owner)
    {
      FreeLoopLeaves(Now().store, owner);
      FreeList(heads[owner], Stop(heads, owner));
      Forget(owner);
    }

    /** The list is empty, or its owner gone. */
    method Forget(owner: Owner)
      requires owner in lists
      modifies `heads, `lists, `homes, `linked, `infos, `released
      ensures Now() == FreedState(old(Now()), owner).(store := Freed(old(Now().store), owner).(heap := heap))
    {
      homes, linked := homes - Cells(lists[owner]), linked - {owner};
      if owner == Card {
        heads, lists, released := heads[Card := NULL], lists[Card := []], true;
      } else {
        heads, infos, lists := heads - {owner}, infos - {owner}, lists - {owner};
      }
    }

    // ----- references -----

    /** The release of the card: no function that is recorded or holds a reference runs on into the common list. */
    method FreeCommonCis()
      requires Sound(Now()) && BooksWith(Now().books, Now().store, 0) && !released
      modifies `heap, `heads, `lists, `homes, `linked, `infos, `released
      ensures Now() == FreedState(old(Now()), Card) && linked * (slots + held) == {}
    {
      FreeCells(Card);
    }

    /** put_device on the card: the last reference releases it. */
    method PutCard()
      requires Sound(Now()) && BooksWith(Now().books, Now().store, refs - 1) && (refs == 1 ==> !released)
      modifies `refs, `heap, `heads, `lists, `homes, `linked, `infos, `released
      ensures Now() == CardPut(old(Now()))
    {
      refs := refs - 1;
      if refs == 0 {
        FreeCommonCis();
      }
    }

    /** The reference that goes with a function: its own if it holds one, and nobody's otherwise. */
    ghost method StrikeOff(n: nat)
      modifies `held, `strays
      ensures Now() == old(Now()).(books := StruckOff(old(Now().books), Func(n)))
    {
      if Func(n) in held {
        held := held - {Func(n)};
      } else {
        strays := strays + 1;
      }
    }

    /** sdio_free_func_cis, from the release of a function: its cells go, and a reference whether or not it took one. */
    method FreeFuncCis(n: nat)
      requires Fair(Now()) && Func(n) in heads && Func(n) !in slots && (nonstd || Func(n) in held)
      modifies `refs, `heap, `heads, `lists, `homes, `linked, `infos, `released, `held, `strays
      ensures Now() == FuncReleased(old(Now()), Func(n))
    {
      FuncReleasedReady(Now(), Func(n));
      FreeCells(Func(n));
      StrikeOff(n);
      PutCard();
    }

    /** sdio_remove_func: nothing at all for a function that was never added. */
    method RemoveFunc(n: nat)
      requires Fair(Now())
      modifies `refs, `heap, `heads, `lists, `homes, `linked, `infos, `released, `held, `strays, `slots, `present
      ensures Now() == FuncRemoved(old(Now()), Func(n))
    {
      if Func(n) !in present {
        return;
      }
      slots, present := slots - {Func(n)}, present - {Func(n)};
      FreeFuncCis(n);
    }

    // ----- setting up -----

    /** What sdio_read_cis makes of a fresh function: the tuples it queues, and its result. */
    ghost function FuncWalk(n: nat, info: Info): Walk {
      match CisStart(env, CisRegister(Func(n)), 3)
      case NoStart(e) => Walk([], e, false, info)
      case At(ptr) => Chain(env, Func(n), ptr, info)
    }

    /** A function without a vendor of its own has vendor and device of the card. */
    function Inherited(info: Info, cis: Info): Info {
      if info.vendor == 0 then info.(vendor := cis.vendor, device := cis.device) else info
    }

    /** The list of a fresh function. */
    method ReadOwnCis(n: nat) returns (ret: int)
      requires Attaching(Now()) && !nonstd && Func(n) in heads && heads[Func(n)] == NULL
      modifies `heap, `heads, `lists, `homes, `root, `infos, `linked
      ensures Attaching(Now()) && OnlyList(old(Now().store), Now().store, Func(n))
      ensures var w := FuncWalk(n, old(infos[Func(n)]));
              ret == w.ret && Contents(Now().store, Func(n)) == w.queued && infos == old(infos)[Func(n) := w.info]
    {
      ghost var st := Now();
      HeadNull(st.store, Func(n));
      SameInfo(infos, Func(n));
      ret := ReadCis(Func(n));
      ReadKeeps(st, Now(), Func(n));
    }

    /** get_device on the card, for a function that links to its tuples, and the vendor. */
    method ShareCard(n: nat)
      requires Attaching(Now()) && !nonstd && Func(n) in heads && Func(n) !in held
      modifies `infos, `refs, `held
      ensures Attaching(Now()) && Now().store == old(Now().store) && Now().books == Held(old(Now().books), Func(n))
      ensures infos == old(infos)[Func(n) := Inherited(old(infos[Func(n)]), old(infos[Card]))]
    {
      HeldKeeps(Now(), Func(n));
      InfoKeeps(Now().(books := Held(Now().books, Func(n))), Func(n), Inherited(infos[Func(n)], infos[Card]));
      refs := refs + 1;
      held := held + {Func(n)};
      SameInfo(infos, Func(n));
      if infos[Func(n)].vendor == 0 {
        infos := infos[Func(n) := infos[Func(n)].(vendor := infos[Card].vendor, device := infos[Card].device)];
      }
    }

    /** sdio_read_func_cis: a reference is taken just when the whole structure was read, and the vendor is made up for. */
    method ReadFuncCis(n: nat) returns (ret: int)
      requires Attaching(Now()) && !nonstd && Func(n) in heads && heads[Func(n)] == NULL && Func(n) !in held
      modifies `heap, `heads, `lists, `homes, `root, `infos, `linked, `refs, `held
      ensures Attaching(Now()) && OnlyList(old(Now().store), Now().store, Func(n))
      ensures Now().books == SetUpBooks(old(Now().books), Func(n), ret)
      ensures var w := FuncWalk(n, old(infos[Func(n)]));
              && ret == w.ret && Contents(Now().store, Func(n)) == w.queued
              && (ret == 0 ==> infos[Func(n)] == Inherited(w.info, old(infos[Card])))
    {
      ret := ReadOwnCis(n);
      if ret == 0 {
        ShareCard(n);
      }
    }

    /** A function of a nonstandard card has no structure of its own. */
    method CopyFromCard(n: nat)
      requires Attaching(Now()) && Func(n) in heads
      modifies `infos
      ensures Attaching(Now())
      ensures infos == old(infos)[Func(n) := old(infos[Func(n)]).(vendor := old(infos[Card]).vendor,
                                  device := old(infos[Card]).device, maxBlksize := old(infos[Card]).blksize)]
    {
      var cis := infos[Card];
      InfoKeeps(Now(), Func(n), infos[Func(n)].(vendor := cis.vendor, device := cis.device, maxBlksize := cis.blksize));
      infos := infos[Func(n) := infos[Func(n)].(vendor := cis.vendor, device := cis.device, maxBlksize := cis.blksize)];
    }

    /** What comes of a fresh function: a card without structures of its own cannot fail. */
    ghost function InitResult(n: nat, info: Info, fbr: int): int {
      if nonstd then 0 else if fbr != 0 then fbr else FuncWalk(n, info).ret
    }

    ghost function SetUpResult(n: nat, memory: bool, info: Info, fbr: int): int {
      if memory then InitResult(n, info, fbr) else ENOMEM
    }

    ghost function InitTuples(n: nat, info: Info, fbr: int): seq<Tuple> {
      if nonstd || fbr != 0 then [] else FuncWalk(n, info).queued
    }

    /** Filling in a fresh function, from its own structures or from the card's. */
    method SetUpFunc(n: nat, fbr: int) returns (ret: int)
      requires Attaching(Now()) && Func(n) in heads && heads[Func(n)] == NULL && Func(n) !in held
      modifies `heap, `heads, `lists, `homes, `root, `infos, `linked, `refs, `held
      ensures Attaching(Now()) && OnlyList(old(Now().store), Now().store, Func(n))
      ensures Now().books == SetUpBooks(old(Now().books), Func(n), ret)
      ensures ret == InitResult(n, old(infos[Func(n)]), fbr)
      ensures Contents(Now().store, Func(n)) == InitTuples(n, old(infos[Func(n)]), fbr)
    {
      HeadNull(Now().store, Func(n));
      OnlyListRefl(Now().store, Func(n));
      if nonstd {
        CopyFromCard(n);
        return 0;
      }
      if fbr != 0 {
        return fbr;
      }
      ret := ReadFuncCis(n);
    }

    /** A fresh function: a zeroed structure, filled in. */
    method BuildFunc(n: nat, blank: Info, fbr: int) returns (ret: int)
      requires Attaching(Now()) && Func(n) !in heads
      modifies `heap, `heads, `lists, `homes, `root, `infos, `linked, `refs, `held
      ensures Attaching(Now()) && FuncAdded(old(Now().store), Now().store, Func(n))
      ensures Now().books == SetUpBooks(old(Now().books), Func(n), ret)
      ensures ret == InitResult(n, blank, fbr) && Contents(Now().store, Func(n)) == InitTuples(n, blank, fbr)
    {
      ghost var st := Now();
      AllocatedKeeps(st, Func(n), blank);
      heads, infos, lists := heads[Func(n) := NULL], infos[Func(n) := blank], lists[Func(n) := []];
      assert Now() == Allocated(st, Func(n), blank);
      ret := SetUpFunc(n, fbr);
      AllocatedOnly(st, Now().store, Func(n), blank);
    }

    /** The function is recorded, or given up; then sdio_remove_func has nothing to remove. */
    method SettleFunc(n: nat, ret: int, ghost b: Books)
      requires Attaching(Now()) && 1 <= n <= MAX_FUNCS && Func(n) in heads && Func(n) !in present
      requires Now().books == SetUpBooks(b, Func(n), ret)
      modifies `heap, `heads, `lists, `homes, `root, `infos, `linked, `refs, `held, `slots, `present, `released, `strays
      ensures Attaching(Now()) && Now() == old(Now()).(books := InitBooks(b, Func(n), ret))
    {
      if ret == 0 {
        RecordedKeeps(Now(), b, n);
        slots := slots + {Func(n)};
      } else {
        RemoveFunc(n);
      }
    }

    /**
     sdio_init_func: a function that cannot be set up is not recorded, and not removed either, since it
     was never added: its structure stays, with the tuples read so far.
     */
    method InitFunc(n: nat, memory: bool, blank: Info, fbr: int) returns (ret: int)
      requires Attaching(Now()) && Func(n) !in heads && n >= 1
      modifies `heap, `heads, `lists, `homes, `root, `infos, `linked, `refs, `held, `slots, `present, `released, `strays
      ensures Attaching(Now())
      ensures n > MAX_FUNCS || !memory ==> ret == (if n > MAX_FUNCS then EINVAL else ENOMEM) && Now() == old(Now())
      ensures n <= MAX_FUNCS && memory ==>
                && ret == InitResult(n, blank, fbr) && Now().books == InitBooks(old(Now().books), Func(n), ret)
                && FuncAdded(old(Now().store), Now().store, Func(n))
                && Contents(Now().store, Func(n)) == InitTuples(n, blank, fbr)
    {
      if n > MAX_FUNCS {
        return EINVAL;
      }
      if !memory {
        return ENOMEM;
      }
      ghost var b := Now().books;
      NotPresent(Now(), Func(n));
      ret := BuildFunc(n, blank, fbr);
      SettleFunc(n, ret, b);
    }

    /** sdio_add_func */
    method AddFunc(n: nat, err: int) returns (ret: int)
      requires Attaching(Now()) && Func(n) in slots
      modifies `present
      ensures Attaching(Now()) && ret == err && present == if err == 0 then old(present) + {Func(n)} else old(present)
    {
      AddedKeeps(Now(), Func(n));
      if err == 0 {
        present := present + {Func(n)};
      }
      ret := err;
    }

    // ----- the whole card -----

    /** A slot of a function is cleared; one without a function is NULL. */
    method RemoveSlot(n: nat)
      requires Fair(Now())
      modifies `refs, `heap, `heads, `lists, `homes, `linked, `infos, `released, `held, `strays, `slots, `present
      ensures Now() == SlotCleared(FuncRemoved(old(Now()), Func(n)), Func(n))
    {
      RemoveFunc(n);
      ClearSlot(n);
    }

    method ClearSlot(n: nat)
      modifies `slots
      ensures Now() == SlotCleared(old(Now()), Func(n))
    {
      slots := slots - {Func(n)};
    }

    /** The loop of mmc_sdio_remove. */
    method RemoveSlots()
      requires Fair(Now())
      modifies `refs, `heap, `heads, `lists, `homes, `linked, `infos, `released, `held, `strays, `slots, `present
      ensures Now() == RemovedUpTo(old(Now()), MAX_FUNCS)
    {
      ghost var st := Now();
      for n := 0 to MAX_FUNCS
        invariant Now() == RemovedUpTo(st, n)
      {
        RemovedNext(st, n);
        RemoveSlot(n + 1);
      }
    }

    /**
     mmc_sdio_remove: just the functions that were added go, and the card when no other holds a
     reference. What was allocated is all gone if and only if every function had been added. On a
     nonstandard card each function drops a reference nobody took, so the card goes before the host's drop.
     */
    method MmcSdioRemove()
      requires Attaching(Now())
      modifies `refs, `heap, `heads, `lists, `homes, `linked, `infos, `released, `held, `own, `strays, `slots, `present
      ensures Now() == CardRemoved(old(Now())) && Fair(Now())
      ensures !own && slots == {} && present == {} && heads.Keys == old(heads.Keys) - old(present)
      ensures released <==> nonstd || old(held) <= old(present)
      ensures strays == if nonstd then |old(present)| else 0
      ensures RemovedUpTo(old(Now()), MAX_FUNCS).store.gone <==> nonstd && old(present) != {}
      ensures heap == map[] <==>
                && (released || old(lists[Card]) == [])
                && forall o :: o in old(lists) && o !in old(present) && o != Card ==> old(lists)[o] == []
      ensures NothingLeft(Now().store) <==> old(heads.Keys) <= old(present) + {Card}
    {
      CardRemovedFair(Now());
      CardRemovedExact(Now());
      CardGoesEarly(Now());
      OwnDropReady(Now());
      RemoveSlots();
      own := false;
      PutCard();
    }

    /** Whether the first n functions can be set up. */
    ghost predicate CanSetUp(blank: Info, answers: seq<Answer>, n: nat)
      requires n <= |answers|
    {
      forall i :: 0 <= i < n ==> SetUpResult(i + 1, answers[i].memory, blank, answers[i].fbr) == 0
    }

    /** The functions are set up one by one, up to the first that cannot be. */
    method InitFuncs(blank: Info, answers: seq<Answer>) returns (ret: int)
      requires Bare(Now()) && |answers| <= MAX_FUNCS
      modifies `heap, `heads, `lists, `homes, `root, `infos, `linked, `refs, `held, `slots, `present, `released, `strays
      ensures ret == 0 <==> CanSetUp(blank, answers, |answers|)
      ensures if ret == 0 then Ready(Now(), |answers|) else answers != [] && Stuck(Now(), !answers[0].memory)
    {
      ret := 0;
      var i := 0;
      BareReady(Now());
      while i < |answers|
        invariant i <= |answers| && Ready(Now(), i) && CanSetUp(blank, answers, i)
      {
        ret := InitOne(i, blank, answers);
        if ret != 0 {
          return;
        }
        i := i + 1;
      }
    }

    method InitOne(i: nat, blank: Info, answers: seq<Answer>) returns (ret: int)
      requires i < |answers| <= MAX_FUNCS && Ready(Now(), i) && CanSetUp(blank, answers, i)
      modifies `heap, `heads, `lists, `homes, `root, `infos, `linked, `refs, `held, `slots, `present, `released, `strays
      ensures if ret == 0 then Ready(Now(), i + 1) else Stuck(Now(), !answers[0].memory)
      ensures if ret == 0 then CanSetUp(blank, answers, i + 1) else !CanSetUp(blank, answers, |answers|)
    {
      ghost var st := Now();
      FuncsNext(i);
      ReadyStuck(st, i);
      ret := InitFunc(i + 1, answers[i].memory, blank, answers[i].fbr);
      assert ret == SetUpResult(i + 1, answers[i].memory, blank, answers[i].fbr);
      if answers[i].memory {
        ReadyNext(st, Now(), i, ret);
      }
      assert i > 0 ==> SetUpResult(1, answers[0].memory, blank, answers[0].fbr) == 0;
    }

    /** The functions are added one by one, up to the first that cannot be. */
    method AddFuncs(answers: seq<Answer>) returns (ret: int)
      requires Ready(Now(), |answers|)
      modifies `present
      ensures Attaching(Now()) && present <= Funcs(|answers|)
      ensures ret == 0 <==> forall i :: 0 <= i < |answers| ==> answers[i].add == 0
      ensures ret == 0 <==> present == Funcs(|answers|)
    {
      ret := 0;
      var i := 0;
      FuncsNext(0);
      while i < |answers|
        invariant i <= |answers| && Attaching(Now()) && present == Funcs(i)
        invariant forall j :: 0 <= j < i ==> answers[j].add == 0
      {
        FuncsNext(i);
        assert Func(i + 1) in Funcs(|answers|);
        ret := AddFunc(i + 1, answers[i].add);
        if ret != 0 {
          return;
        }
        i := i + 1;
      }
    }

    /** First the card, then the functions. */
    method AddAll(addCard: int, answers: seq<Answer>) returns (ret: int)
      requires Ready(Now(), |answers|)
      modifies `present
      ensures Attaching(Now()) && present <= Funcs(|answers|)
      ensures ret == 0 <==> addCard == 0 && forall i :: 0 <= i < |answers| ==> answers[i].add == 0
      ensures if ret == 0 then present == Funcs(|answers|) else (heads.Keys <= present + {Card} <==> answers == [])
    {
      FuncsNext(|answers|);
      ret := addCard;
      if ret == 0 {
        ret := AddFuncs(answers);
      }
    }

    /** Setting up and adding, without what happens on failure. */
    method SetUpAll(blank: Info, addCard: int, answers: seq<Answer>) returns (ret: int)
      requires Bare(Now()) && |answers| <= MAX_FUNCS
      modifies `heap, `heads, `lists, `homes, `root, `infos, `linked, `refs, `held, `slots, `present, `released, `strays
      ensures Attaching(Now()) && (ret == 0 <==> addCard == 0 && AllWell(blank, answers))
      ensures ret == 0 ==> slots == present == Funcs(|answers|) && heads.Keys == present + {Card}
      ensures ret != 0 ==> (heads.Keys <= present + {Card} <==> answers == [] || !answers[0].memory)
    {
      ret := InitFuncs(blank, answers);
      if ret == 0 {
        ret := AddAll(addCard, answers);
      } else {
        StuckKeys(Now(), !answers[0].memory);
      }
    }

    /** Every function can be set up and added. */
    ghost predicate AllWell(blank: Info, answers: seq<Answer>) {
      CanSetUp(blank, answers, |answers|) && (forall i :: 0 <= i < |answers| ==> answers[i].add == 0)
    }

    /**
     The functions of mmc_attach_sdio: set up, then added to the driver model after the card. When any
     of this fails, everything is given back if and only if not even one function had been allocated.
     */
    method AttachFuncs(blank: Info, addCard: int, answers: seq<Answer>) returns (ret: int)
      requires Bare(Now()) && |answers| <= MAX_FUNCS
      modifies `heap, `heads, `lists, `homes, `root, `infos, `linked, `refs, `held, `slots, `present, `released, `strays, `own
      ensures Fair(Now()) && (ret == 0 <==> addCard == 0 && AllWell(blank, answers))
      ensures ret == 0 ==> Attaching(Now()) && slots == present == Funcs(|answers|) && heads.Keys == present + {Card}
      ensures ret != 0 ==> !own && (NothingLeft(Now().store) <==> answers == [] || !answers[0].memory)
    {
      ret := SetUpAll(blank, addCard, answers);
      if ret != 0 {
        MmcSdioRemove();
      }
    }
  }

  // ----- an input that leaks -----

  /** Function 1 has its chain at 0x1000: one tuple of an unknown code without data. */
  function OneTuple(addr: nat): Reading {
    if addr == 0x10A then Got(0x10)
    else if addr in {0x109, 0x10B, 0x1001} then Got(0)
    else if addr == 0x1000 then Got(0x80)
    else Got(0xff)
  }

  const LEAKY: Env := Env(OneTuple, _ => true, _ => true, REV_1_10)

  lemma {:induction false} ShlZero(k: nat)
    ensures Shl(0, k) == 0
  {
    if k > 0 {
      ShlZero(k - 1);
    }
  }

  lemma LeakyStart()
    ensures CisStart(LEAKY, CisRegister(Func(1)), 3) == At(0x1000)
  {
    var r := CisRegister(Func(1));
    assert r == 0x109;
    assert CisStart(LEAKY, r, 0) == At(0);
    assert CisStart(LEAKY, r, 1) == At(0);
    ShlShl(0x10, 4, 4);
    assert Shl(0x10, 4) == 0x100 && Shl(0x100, 4) == 0x1000;
    assert CisStart(LEAKY, r, 2) == At(0x1000);
    ShlZero(16);
  }

  lemma LeakyChain(info: Info)
    ensures Chain(LEAKY, Func(1), 0x1000, info) == Walk([Tuple(0x80, [])], 0, true, info)
  {
    assert Chain(LEAKY, Func(1), 0x1002, info) == Walk([], 0, true, info);
    assert ReadData(LEAKY, 0x1002, 0) == Bytes([]);
  }

  /** The first function is set up: it has a tuple and a reference. */
  ghost predicate LeakyState(st: State, funcs: set<Owner>) {
    && Attaching(st) && !st.books.nonstd && st.store.heads.Keys == {Card} + funcs
    && st.books.held == {Func(1)} && st.books.present == {} && Func(1) in st.store.lists && st.store.lists[Func(1)] != []
  }

  lemma LeakySetUp(st: State, st': State)
    requires Bare(st) && !st.books.nonstd && st.books.held == {} && st.books.present == {}
    requires Attaching(st') && FuncAdded(st.store, st'.store, Func(1)) && st'.books == InitBooks(st.books, Func(1), 0)
    requires Contents(st'.store, Func(1)) == [Tuple(0x80, [])]
    ensures LeakyState(st', {Func(1)})
  {
    assert |Contents(st'.store, Func(1))| == |st'.store.lists[Func(1)]|;
  }

  lemma LeakyStep(st: State, st': State)
    requires LeakyState(st, {Func(1)}) && Attaching(st') && FuncAdded(st.store, st'.store, Func(2)) && st'.books == st.books
    ensures LeakyState(st', {Func(1), Func(2)})
  {
  }

  lemma LeakyLeft(st: State)
    requires LeakyState(st, {Func(1), Func(2)})
    ensures var s' := CardRemoved(st).store;
            s'.heads.Keys == {Card, Func(1), Func(2)} && s'.heap != map[] && !s'.gone && Fair(CardRemoved(st))
  {
    CardRemovedFair(st);
    CardRemovedExact(st);
    assert Func(1) in st.store.lists && Func(1) !in st.books.present;
  }

  method LeakyFirst(blank: Info) returns (cis: Cis)
    ensures fresh(cis) && LeakyState(cis.Now(), {Func(1)}) && cis.env == LEAKY
  {
    cis := new Cis(LEAKY, blank, false);
    LeakyStart();
    LeakyChain(blank);
    ghost var st := cis.Now();
    var ret := cis.InitFunc(1, true, blank, 0);
    LeakySetUp(st, cis.Now());
  }

  method LeakySecond(cis: Cis, blank: Info) returns (ret: int)
    requires LeakyState(cis.Now(), {Func(1)})
    modifies cis
    ensures ret == EIO && LeakyState(cis.Now(), {Func(1), Func(2)})
  {
    ghost var st := cis.Now();
    ret := cis.InitFunc(2, true, blank, EIO);
    LeakyStep(st, cis.Now());
  }

  /** The first function is set up, the second is not: both stay, with a tuple and the card. */
  method LeakExample(blank: Info) returns (cis: Cis, ret: int)
    ensures ret == EIO && fresh(cis) && Fair(cis.Now())
    ensures cis.heads.Keys == {Card, Func(1), Func(2)} && cis.heap != map[] && !cis.released
  {
    cis := LeakyFirst(blank);
    ret := LeakySecond(cis, blank);
    LeakyLeft(cis.Now());
    cis.MmcSdioRemove();
  }

  /** A nonstandard card with one function: removing it releases the card under the host that still holds it. */
  method EarlyExample(env: Env, blank: Info) returns (cis: Cis)
    ensures fresh(cis) && Fair(cis.Now()) && cis.own && cis.released && cis.refs == 0
  {
    cis := new Cis(env, blank, true);
    var ret := cis.InitFunc(1, true, blank, 0);
    ret := cis.AddFunc(1, 0);
    FuncRemovedFair(cis.Now(), Func(1));
    cis.RemoveFunc(1);
  }
}
