/** One RPC call and its response slots, raced by executors, the caller's timeout and cancellation. */
module Rpc {

  /** -ERPCWAITIMEDOUT and -ECANCELLED. */
  const WAIT_TIMED_OUT: int := -4103
  const CANCELLED: int := -4101

  /** What one execution of the function for one call produced. */
  datatype Output = Output(call: nat, proc: nat, args: nat, value: nat)

  /** srpc_rc_t: rc 0, RC_ST_LOCK, RC_ST_READY with the response bytes, RC_ST_ERROR with its code. */
  datatype Status = Blank | Locked | Ready(out: Output) | Failed(code: int)

  datatype Who = Nobody | Proc(p: nat)

  /** libsrpc_response_t; `hp` stands for hp_proc together with the uid stored beside it. */
  datatype Slot = Slot(st: Status, hp: Who)

  /**
   * libsrpc_request_t. `serial` is seq_num; `call`, `sent` and `tried` are history: the call in
   * progress, how many slots have been handed to a queue, and whether any process was addressed.
   */
  datatype Block = Block(
    owner: nat, alive: bool, serial: nat, args: nat, retnum: nat, slots: seq<Slot>,
    call: nat, sent: nat, tried: bool)

  /** Where the calling thread stands in libsrpc_req_alloc, libsrpc_send_request and response_get. */
  datatype CallerPc = Rest | Sending | Addressing(p: nat) | Waiting | Marking(i: nat) | Reading | Gone

  datatype Current = NoBlock | Cur(b: nat)
  datatype Caller = Caller(pc: CallerPc, cur: Current)

  /** Where a queued request stands on its way through an executor or the daemon. */
  datatype Stage =
    | Queued
    | Taken
    | Checked(ctrl: nat, s: nat)
    | Ran(ctrl: nat, s: nat, out: Output)
    | Entering(s: nat, out: Output)
    | Won(s: nat, out: Output)
    | Cancelling
    | Found(s: nat)

  /** A queue entry for slot i of block b, addressed to process p. */
  datatype Token = Token(b: nat, p: nat, i: nat, stage: Stage)

  datatype Execution = Execution(call: nat, proc: nat)
  datatype Result = Value(out: Output) | Error(code: int) | Unanswered
  datatype Got = Got(call: nat, result: Result, tried: bool)

  datatype System = System(
    blocks: map<nat, Block>, callers: map<nat, Caller>, tokens: map<nat, Token>,
    asked: seq<nat>, ran: seq<Execution>, got: seq<Got>, nextBlock: nat, nextToken: nat, serial: nat)

  datatype Event =
    | Call(cid: nat, args: nat, retnum: nat, fits: bool, junk: seq<Slot>)
    | Address(cid: nat, p: nat) | Refuse(cid: nat, code: int) | Enqueue(cid: nat) | EndSend(cid: nat)
    | Wake(cid: nat) | TimeOut(cid: nat) | Mark(cid: nat) | Deliver(cid: nat)
    | Take(t: nat) | Check(t: nat) | Execute(t: nat, v: nat) | Recheck(t: nat) | Compete(t: nat) | Publish(t: nat)
    | TakeBack(t: nat) | Search(t: nat) | Cancel(t: nat) | Die(t: nat)
    | Leave(cid: nat) | Destroy(b: nat)

  // ---------------------------------------------------------------- pieces

  /** libsrpc_req_is_bad. */
  predicate IsBad(b: Block) {
    exists i :: 0 <= i < b.retnum && (i >= |b.slots| || !b.slots[i].st.Ready?)
  }

  /** The executor's search for its own slot: the first one addressed to p; retnum when there is none. */
  function FindSlot(b: Block, p: nat, i: nat): (r: nat)
    requires i <= b.retnum
    ensures i <= r <= b.retnum
    decreases b.retnum - i
  {
    if i >= b.retnum || (i < |b.slots| && b.slots[i].hp == Proc(p)) then i else FindSlot(b, p, i + 1)
  }

  predicate Answered(s: Slot) { s.hp.Nobody? || s.st.Ready? || s.st.Failed? }

  predicate AllAnswered(b: Block) {
    forall i :: 0 <= i < b.retnum && i < |b.slots| ==> Answered(b.slots[i])
  }

  function SetSlot(s: System, b: nat, i: nat, slot: Slot): System {
    if b in s.blocks && i < |s.blocks[b].slots|
    then s.(blocks := s.blocks[b := s.blocks[b].(slots := s.blocks[b].slots[i := slot])]) else s
  }

  function StatusOf(s: System, b: nat, i: nat): Status {
    if b in s.blocks && i < |s.blocks[b].slots| then s.blocks[b].slots[i].st else Blank
  }

  /** The compare-and-swap that leaves EMPTY: one of LOCK, a timeout or a cancellation wins. */
  function Swap(s: System, b: nat, i: nat, st: Status): System {
    if b in s.blocks && i < |s.blocks[b].slots| && s.blocks[b].slots[i].st.Blank?
    then SetSlot(s, b, i, s.blocks[b].slots[i].(st := st)) else s
  }

  function Goto(s: System, cid: nat, pc: CallerPc): System {
    if cid in s.callers then s.(callers := s.callers[cid := s.callers[cid].(pc := pc)]) else s
  }

  function Move(s: System, t: nat, stage: Stage): System {
    if t in s.tokens then s.(tokens := s.tokens[t := s.tokens[t].(stage := stage)]) else s
  }

  function Drop(s: System, t: nat): System { s.(tokens := s.tokens - {t}) }

  // ---------------------------------------------------------------- the caller

  /** Whatever outputs lie in these bytes were computed for calls before the given one. */
  predicate Earlier(slots: seq<Slot>, call: nat) {
    forall i :: 0 <= i < |slots| && slots[i].st.Ready? ==> slots[i].st.out.call < call
  }

  /**
   * libsrpc_req_alloc: reuse the thread's block when every slot of its last call is READY. `junk` is
   * what earlier calls left where the new call's slots come to lie.
   */
  function AllocStep(s: System, cid: nat, args: nat, retnum: nat, fits: bool, junk: seq<Slot>): System {
    var c := if cid in s.callers then s.callers[cid] else Caller(Rest, NoBlock);
    if !c.pc.Rest? || retnum == 0 then s
    else if c.cur.Cur? && c.cur.b in s.blocks && !IsBad(s.blocks[c.cur.b]) && fits
      && |junk| == retnum && Earlier(junk, |s.asked|) then
      var b := s.blocks[c.cur.b].(serial := s.serial, args := args, retnum := retnum, slots := junk,
                                  call := |s.asked|, sent := 0, tried := false);
      s.(blocks := s.blocks[c.cur.b := b], callers := s.callers[cid := c.(pc := Sending)],
         asked := s.asked + [args], serial := s.serial + 1)
    else
      var b := Block(cid, true, s.serial, args, retnum, seq(retnum, _ => Slot(Blank, Nobody)), |s.asked|, 0, false);
      s.(blocks := s.blocks[s.nextBlock := b], callers := s.callers[cid := Caller(Sending, Cur(s.nextBlock))],
         asked := s.asked + [args], serial := s.serial + 1, nextBlock := s.nextBlock + 1)
  }

  /** Whether slot i of the block already went to p in this call. */
  predicate Addressed(b: Block, p: nat) {
    exists i :: 0 <= i < b.sent && i < |b.slots| && b.slots[i].hp == Proc(p)
  }

  function SendStep(s: System, e: Event): System
    requires e.Address? || e.Refuse? || e.Enqueue? || e.EndSend?
  {
    if !(e.cid in s.callers && s.callers[e.cid].cur.Cur? && s.callers[e.cid].cur.b in s.blocks) then s else
      var b := s.callers[e.cid].cur.b;
      var k := s.blocks[b];
      var pc := s.callers[e.cid].pc;
      match e
      case Address(cid, p) =>
        if pc != Sending || k.sent >= k.retnum || Addressed(k, p) then s else
          Goto(SetSlot(s, b, k.sent, Slot(Blank, Proc(p))), cid, Addressing(p))
      case Refuse(cid, code) =>
        if !pc.Addressing? || code == 0 then s else
          var r := SetSlot(s, b, k.sent, Slot(Failed(code), Nobody));
          Goto(r.(blocks := r.blocks[b := r.blocks[b].(tried := true)]), cid, Sending)
      case Enqueue(cid) =>
        if !pc.Addressing? then s else
          var r := s.(tokens := s.tokens[s.nextToken := Token(b, pc.p, k.sent, Queued)], nextToken := s.nextToken + 1,
                      blocks := s.blocks[b := k.(sent := k.sent + 1, tried := true)]);
          Goto(r, cid, Sending)
      case EndSend(cid) =>
        if pc != Sending then s
        else if k.sent == 0 then Goto(s, cid, Reading)
        else Goto(s.(blocks := s.blocks[b := k.(retnum := k.sent)]), cid, Waiting)
  }

  function WaitStep(s: System, e: Event): System
    requires e.Wake? || e.TimeOut? || e.Mark? || e.Deliver?
  {
    if !(e.cid in s.callers && s.callers[e.cid].cur.Cur? && s.callers[e.cid].cur.b in s.blocks) then s else
      var b := s.callers[e.cid].cur.b;
      var k := s.blocks[b];
      var pc := s.callers[e.cid].pc;
      match e
      case Wake(cid) => if pc == Waiting && AllAnswered(k) then Goto(s, cid, Reading) else s
      case TimeOut(cid) => if pc == Waiting then Goto(s, cid, Marking(0)) else s
      case Mark(cid) =>
        if !pc.Marking? then s
        else if pc.i >= k.retnum then Goto(s, cid, Reading)
        else Goto(Swap(s, b, pc.i, Failed(WAIT_TIMED_OUT)), cid, Marking(pc.i + 1))
      case Deliver(cid) =>
        if pc != Reading then s else
          var result := match StatusOf(s, b, 0)
            case Ready(out) => Value(out)
            case Failed(code) => Error(code)
            case _ => Unanswered;
          Goto(s.(got := s.got + [Got(k.call, result, k.tried)]), cid, Rest)
  }

  // ---------------------------------------------------------------- executors and the daemon

  function ExecutorStep(s: System, e: Event): System
    requires e.Take? || e.Check? || e.Execute? || e.Recheck? || e.Compete? || e.Publish? || e.Die? || e.TakeBack?
      || e.Search? || e.Cancel?
  {
    if !(e.t in s.tokens && s.tokens[e.t].b in s.blocks) then s else
      var k := s.tokens[e.t];
      var b := s.blocks[k.b];
      match e
      case Take(t) => if k.stage.Queued? then Move(s, t, Taken) else s
      case TakeBack(t) => if k.stage.Queued? then Move(s, t, Cancelling) else s
      case Check(t) =>
        if !k.stage.Taken? then s
        else if !b.alive || FindSlot(b, k.p, 0) >= b.retnum then Drop(s, t)
        else Move(s, t, Checked(b.serial, FindSlot(b, k.p, 0)))
      case Execute(t, v) =>
        if !k.stage.Checked? then s else
          Move(s.(ran := s.ran + [Execution(b.call, k.p)]), t,
               Ran(k.stage.ctrl, k.stage.s, Output(b.call, k.p, b.args, v)))
      case Recheck(t) =>
        if !k.stage.Ran? then s
        else if !b.alive || b.serial != k.stage.ctrl then Drop(s, t)
        else Move(s, t, Entering(k.stage.s, k.stage.out))
      case Compete(t) =>
        if !k.stage.Entering? then s
        else if !StatusOf(s, k.b, k.stage.s).Blank? then Drop(s, t)
        else Move(Swap(s, k.b, k.stage.s, Locked), t, Won(k.stage.s, k.stage.out))
      case Publish(t) =>
        if !k.stage.Won? || k.stage.s >= |b.slots| then s
        else Drop(SetSlot(s, k.b, k.stage.s, b.slots[k.stage.s].(st := Ready(k.stage.out))), t)
      case Search(t) =>
        if !k.stage.Cancelling? then s
        else if !b.alive || FindSlot(b, k.p, 0) >= b.retnum then Drop(s, t)
        else Move(s, t, Found(FindSlot(b, k.p, 0)))
      case Cancel(t) =>
        if !k.stage.Found? then s else Drop(Swap(s, k.b, k.stage.s, Failed(CANCELLED)), t)
      case Die(t) => Drop(s, t)
  }

  predicate InUse(s: System, b: nat) {
    exists cid :: cid in s.callers && !s.callers[cid].pc.Gone? && s.callers[cid].cur == Cur(b)
  }

  function Step(s: System, e: Event): System {
    match e
    case Call(cid, args, retnum, fits, junk) => AllocStep(s, cid, args, retnum, fits, junk)
    case Address(_, _) => SendStep(s, e)
    case Refuse(_, _) => SendStep(s, e)
    case Enqueue(_) => SendStep(s, e)
    case EndSend(_) => SendStep(s, e)
    case Wake(_) => WaitStep(s, e)
    case TimeOut(_) => WaitStep(s, e)
    case Mark(_) => WaitStep(s, e)
    case Deliver(_) => WaitStep(s, e)
    case Leave(cid) => Goto(s, cid, Gone)
    case Destroy(b) =>
      if b in s.blocks && !InUse(s, b) then s.(blocks := s.blocks[b := s.blocks[b].(alive := false)]) else s
    case _ => ExecutorStep(s, e)
  }

  // ---------------------------------------------------------------- invariant

  /** A slot that went to a queue in this call, as the slot alone can tell. */
  ghost predicate SlotOk(s: System, b: nat, i: nat)
    requires b in s.blocks && i < |s.blocks[b].slots|
  {
    var k := s.blocks[b];
    && k.slots[i].hp.Proc?
    && (k.slots[i].st.Ready? ==> k.slots[i].st.out == Output(k.call, k.slots[i].hp.p, k.args, k.slots[i].st.out.value))
    && (k.slots[i].st.Ready? ==> Execution(k.call, k.slots[i].hp.p) in s.ran)
    && (k.slots[i].st.Failed? ==> k.slots[i].st.code == WAIT_TIMED_OUT || k.slots[i].st.code == CANCELLED)
    && (k.slots[i].st == Failed(CANCELLED) ==> Execution(k.call, k.slots[i].hp.p) !in s.ran)
  }

  ghost predicate BlockOk(s: System, b: nat)
    requires b in s.blocks
  {
    var k := s.blocks[b];
    && b < s.nextBlock
    && k.sent <= k.retnum && k.retnum <= |k.slots|
    && k.call < |s.asked| && k.args == s.asked[k.call]
    && (forall i {:trigger SlotOk(s, b, i)} :: 0 <= i < k.sent ==> SlotOk(s, b, i))
    && (forall i, j :: 0 <= i < j < k.sent ==> k.slots[i].hp != k.slots[j].hp)
    && (forall i :: 0 <= i < |s.ran| && s.ran[i].call == k.call ==> Addressed(k, s.ran[i].proc))
  }

  /** Not decided yet, or decided by the caller's timeout. */
  predicate Undecided(st: Status) { st == Blank || st == Failed(WAIT_TIMED_OUT) }

  ghost predicate TokenOk(s: System, t: nat)
    requires t in s.tokens
  {
    var k := s.tokens[t];
    && t < s.nextToken
    && k.b in s.blocks
    && k.i < s.blocks[k.b].sent && k.i < |s.blocks[k.b].slots| && k.i < s.blocks[k.b].retnum
    && s.blocks[k.b].slots[k.i].hp == Proc(k.p)
    && StageOk(s.ran, s.blocks[k.b], k)
  }

  ghost predicate StageOk(ran: seq<Execution>, b: Block, k: Token)
    requires k.i < |b.slots|
  {
    var st := b.slots[k.i].st;
    match k.stage
    case Queued => Undecided(st) && Execution(b.call, k.p) !in ran
    case Taken => Undecided(st) && Execution(b.call, k.p) !in ran
    case Cancelling => Undecided(st) && Execution(b.call, k.p) !in ran
    case Checked(ctrl, i) => Undecided(st) && i == k.i && ctrl == b.serial && Execution(b.call, k.p) !in ran
    case Ran(ctrl, i, out) =>
      Undecided(st) && i == k.i && ctrl == b.serial && Produced(ran, b, k.p, out)
    case Entering(i, out) => Undecided(st) && i == k.i && Produced(ran, b, k.p, out)
    case Found(i) => Undecided(st) && i == k.i && Execution(b.call, k.p) !in ran
    case Won(i, out) => st == Locked && i == k.i && Produced(ran, b, k.p, out)
  }

  /** out is what p computed for this call on this call's arguments. */
  ghost predicate Produced(ran: seq<Execution>, b: Block, p: nat, out: Output) {
    out == Output(b.call, p, b.args, out.value) && Execution(b.call, p) in ran
  }

  ghost predicate CallerOk(s: System, cid: nat)
    requires cid in s.callers
  {
    var c := s.callers[cid];
    c.cur.Cur? ==>
      && c.cur.b in s.blocks
      && s.blocks[c.cur.b].owner == cid
      && PcOk(s.blocks[c.cur.b], c.pc)
  }

  ghost predicate PcOk(b: Block, pc: CallerPc) {
    match pc
    case Addressing(p) =>
      && b.sent < b.retnum && b.sent < |b.slots| && b.slots[b.sent] == Slot(Blank, Proc(p))
      && !Addressed(b, p)
    case Waiting => 0 < b.sent == b.retnum && b.tried
    case Marking(i) =>
      && 0 < b.sent == b.retnum && b.tried
      && forall j :: 0 <= j < i && j < |b.slots| ==> !b.slots[j].st.Blank?
    case Reading =>
      && (b.sent == b.retnum || b.sent == 0)
      && (b.sent > 0 ==> b.slots != [] && !b.slots[0].st.Blank?)
      && FirstSlotOk(b)
    case Rest => b.sent == b.retnum || b.sent == 0
    case Sending => FirstSlotOk(b)
    case Gone => true
  }

  /** While nothing is sent, the first slot holds a refusal or, untouched, what earlier calls left. */
  ghost predicate FirstSlotOk(b: Block) {
    && (b.sent > 0 ==> b.tried)
    && (b.sent == 0 && b.tried ==> b.slots != [] && b.slots[0].st.Failed?)
    && (!b.tried && b.slots != [] && b.slots[0].st.Ready? ==> b.slots[0].st.out.call < b.call)
  }

  ghost predicate Unique(s: System) {
    && (forall t, u :: t in s.tokens && u in s.tokens && t != u ==>
         s.tokens[t].b != s.tokens[u].b || s.tokens[t].i != s.tokens[u].i)
    && (forall b, c :: b in s.blocks && c in s.blocks && b != c ==> s.blocks[b].call != s.blocks[c].call)
  }

  ghost predicate HistoryOk(s: System) {
    && (forall i :: 0 <= i < |s.ran| ==> s.ran[i].call < |s.asked|)
    && (forall i, j :: 0 <= i < j < |s.ran| ==> s.ran[i] != s.ran[j])
    && (forall i {:trigger GotOk(s, s.got[i])} :: 0 <= i < |s.got| ==> GotOk(s, s.got[i]))
  }

  /** A delivered value belongs to the call that asked exactly if some process was addressed. */
  ghost predicate GotOk(s: System, g: Got) {
    && g.call < |s.asked|
    && (g.result.Value? ==> (g.tried <==> g.result.out.call == g.call) && g.result.out.call <= g.call)
    && (g.result.Value? && g.tried ==> g.result.out.args == s.asked[g.call])
  }

  ghost predicate Inv(s: System) {
    && (forall b {:trigger BlockOk(s, b)} :: b in s.blocks ==> BlockOk(s, b))
    && (forall t {:trigger TokenOk(s, t)} :: t in s.tokens ==> TokenOk(s, t))
    && (forall c {:trigger CallerOk(s, c)} :: c in s.callers ==> CallerOk(s, c))
    && Unique(s)
    && HistoryOk(s)
  }

  const START: System := System(map[], map[], map[], [], [], [], 0, 0, 0)

  lemma StartInv()
    ensures Inv(START)
  {
  }

  // ---------------------------------------------------------------- the caller keeps it

  lemma GotoInv(s: System, cid: nat, pc: CallerPc)
    requires Inv(s)
    requires cid in s.callers && s.callers[cid].cur.Cur? ==>
      s.callers[cid].cur.b in s.blocks && PcOk(s.blocks[s.callers[cid].cur.b], pc)
    ensures Inv(Goto(s, cid, pc))
  {
    hide PcOk, StageOk, SlotOk, Unique, GotOk;
    var r := Goto(s, cid, pc);
    SameBlocks(s, r);
    SameHistory(s, r);
    forall c | c in r.callers ensures CallerOk(r, c) {
      assert CallerOk(s, c);
    }
  }

  /** Blocks and tokens do not look at callers. */
  lemma SameBlocks(s: System, r: System)
    requires Inv(s) && r.blocks == s.blocks && r.tokens == s.tokens && r.ran == s.ran && r.asked == s.asked
    requires r.nextBlock >= s.nextBlock && r.nextToken >= s.nextToken
    ensures forall b :: b in r.blocks ==> BlockOk(r, b)
    ensures forall t :: t in r.tokens ==> TokenOk(r, t)
    ensures Unique(r)
  {
    hide PcOk, HistoryOk, CallerOk;
    forall b | b in r.blocks ensures BlockOk(r, b) {
      assert BlockOk(s, b);
      forall i | 0 <= i < r.blocks[b].sent ensures SlotOk(r, b, i) {
        assert SlotOk(s, b, i);
      }
    }
    forall t | t in r.tokens ensures TokenOk(r, t) {
      assert TokenOk(s, t);
    }
  }

  lemma SameHistory(s: System, r: System)
    requires HistoryOk(s) && r.ran == s.ran && r.got == s.got
    requires |r.asked| >= |s.asked| && r.asked[..|s.asked|] == s.asked
    ensures HistoryOk(r)
  {
    forall i | 0 <= i < |r.got| ensures GotOk(r, r.got[i]) {
      assert GotOk(s, s.got[i]);
      assert r.asked[..|s.asked|][s.got[i].call] == s.asked[s.got[i].call];
    }
  }

  /** A block whose slots are all READY has no request on its way. */
  lemma NoTokenLeft(s: System, b: nat, t: nat)
    requires Inv(s) && b in s.blocks && t in s.tokens
    requires s.blocks[b].sent == 0 || (s.blocks[b].sent == s.blocks[b].retnum && !IsBad(s.blocks[b]))
    ensures s.tokens[t].b != b
  {
    hide PcOk, HistoryOk, Unique, CallerOk;
    assert TokenOk(s, t);
  }

  lemma AllocInv(s: System, cid: nat, args: nat, retnum: nat, fits: bool, junk: seq<Slot>)
    requires Inv(s)
    ensures Inv(AllocStep(s, cid, args, retnum, fits, junk))
  {
    hide IsBad, StageOk, CallerOk, BlockOk, TokenOk, PcOk, GotOk;
    var r := AllocStep(s, cid, args, retnum, fits, junk);
    if r != s {
      SameHistory(s, r);
      AllocBlocks(s, cid, args, retnum, fits, junk);
      AllocCallers(s, cid, args, retnum, fits, junk);
      CallsSmall(s);
    }
  }

  lemma CallsSmall(s: System)
    requires Inv(s)
    ensures forall b :: b in s.blocks ==> s.blocks[b].call < |s.asked| && b < s.nextBlock
  {
    hide PcOk, HistoryOk, Unique, CallerOk, TokenOk;
    forall b | b in s.blocks ensures s.blocks[b].call < |s.asked| && b < s.nextBlock {
      assert BlockOk(s, b);
    }
  }

  lemma RanSmall(s: System)
    requires HistoryOk(s)
    ensures forall i :: 0 <= i < |s.ran| ==> s.ran[i].call < |s.asked|
  {
  }

  lemma AllocCallers(s: System, cid: nat, args: nat, retnum: nat, fits: bool, junk: seq<Slot>)
    requires Inv(s)
    ensures var r := AllocStep(s, cid, args, retnum, fits, junk);
            forall c :: c in r.callers ==> CallerOk(r, c)
  {
    hide IsBad, HistoryOk, Unique, BlockOk, TokenOk;
    var r := AllocStep(s, cid, args, retnum, fits, junk);
    CallsSmall(s);
    if cid in s.callers { assert CallerOk(s, cid); }
    forall c | c in r.callers ensures CallerOk(r, c) {
      if c in s.callers { assert CallerOk(s, c); }
    }
  }

  lemma AllocBlocks(s: System, cid: nat, args: nat, retnum: nat, fits: bool, junk: seq<Slot>)
    requires Inv(s)
    ensures var r := AllocStep(s, cid, args, retnum, fits, junk);
            && (forall b :: b in r.blocks ==> BlockOk(r, b))
            && (forall t :: t in r.tokens ==> TokenOk(r, t))
  {
    hide IsBad, HistoryOk, Unique, PcOk, Addressed;
    var r := AllocStep(s, cid, args, retnum, fits, junk);
    if cid in s.callers { assert CallerOk(s, cid); }
    RanSmall(s);
    forall b | b in r.blocks ensures BlockOk(r, b) {
      if b in s.blocks { assert BlockOk(s, b); }
      forall i | 0 <= i < r.blocks[b].sent ensures SlotOk(r, b, i) {
        assert SlotOk(s, b, i);
      }
    }
    forall t | t in r.tokens ensures TokenOk(r, t) {
      assert TokenOk(s, t);
      assert BlockOk(s, s.tokens[t].b);
      if cid in s.callers && s.callers[cid].cur.Cur? && s.callers[cid].pc.Rest?
         && !IsBad(s.blocks[s.callers[cid].cur.b]) {
        RestIsWhole(s, cid);
        NoTokenLeft(s, s.callers[cid].cur.b, t);
      }
    }
  }

  lemma RestIsWhole(s: System, cid: nat)
    requires Inv(s) && cid in s.callers && s.callers[cid].pc.Rest? && s.callers[cid].cur.Cur?
    ensures s.callers[cid].cur.b in s.blocks
    ensures var k := s.blocks[s.callers[cid].cur.b]; k.sent == 0 || k.sent == k.retnum
  {
    hide BlockOk, TokenOk, HistoryOk, Unique;
    assert CallerOk(s, cid);
  }

  // ---------------------------------------------------------------- one slot changes

  function Edited(k: Block, i: nat, slot: Slot): Block
    requires i < |k.slots|
  {
    k.(slots := k.slots[i := slot])
  }

  /** A slot that was sent stays addressed to the same process, with a result that fits. */
  ghost predicate SlotKept(s: System, b: nat, i: nat, slot: Slot) {
    && b in s.blocks && i < |s.blocks[b].slots|
    && (i < s.blocks[b].sent ==> slot.hp == s.blocks[b].slots[i].hp && SlotOk(SetSlot(s, b, i, slot), b, i))
  }

  /** Whoever looks at slot i of block b keeps seeing what it relies on. */
  ghost predicate SlotEdit(s: System, b: nat, i: nat, slot: Slot) {
    && SlotKept(s, b, i, slot)
    && (forall t {:trigger TokenOk(s, t)} :: t in s.tokens && s.tokens[t].b == b && s.tokens[t].i == i ==>
          StageOk(s.ran, Edited(s.blocks[b], i, slot), s.tokens[t]))
  }

  lemma EditBlocks(s: System, b: nat, i: nat, slot: Slot)
    requires Inv(s) && SlotKept(s, b, i, slot)
    ensures forall c :: c in SetSlot(s, b, i, slot).blocks ==> BlockOk(SetSlot(s, b, i, slot), c)
  {
    hide PcOk, HistoryOk, Unique, CallerOk, TokenOk, StageOk, Addressed;
    var r := SetSlot(s, b, i, slot);
    forall c | c in r.blocks ensures BlockOk(r, c) {
      assert BlockOk(s, c);
      forall j | 0 <= j < r.blocks[c].sent ensures SlotOk(r, c, j) {
        assert SlotOk(s, c, j);
      }
      forall j | 0 <= j < |s.ran| && s.ran[j].call == r.blocks[c].call ensures Addressed(r.blocks[c], s.ran[j].proc) {
        if c == b { AddressedStays(s.blocks[b], i, slot, s.ran[j].proc); }
      }
    }
  }

  lemma AddressedStays(k: Block, i: nat, slot: Slot, p: nat)
    requires i < |k.slots| && (i < k.sent ==> slot.hp == k.slots[i].hp)
    ensures Addressed(Edited(k, i, slot), p) <==> Addressed(k, p)
  {
    var e := Edited(k, i, slot);
    assert forall j :: 0 <= j < k.sent && j < |k.slots| ==> e.slots[j].hp == k.slots[j].hp;
  }

  lemma EditTokens(s: System, b: nat, i: nat, slot: Slot)
    requires Inv(s) && SlotEdit(s, b, i, slot)
    ensures forall t :: t in SetSlot(s, b, i, slot).tokens ==> TokenOk(SetSlot(s, b, i, slot), t)
  {
    hide PcOk, HistoryOk, Unique, CallerOk, BlockOk, SlotOk;
    var r := SetSlot(s, b, i, slot);
    forall t | t in r.tokens ensures TokenOk(r, t) {
      assert TokenOk(s, t);
    }
  }

  /** Its own caller edits a slot and goes on. */
  lemma EditGoto(s: System, b: nat, i: nat, slot: Slot, cid: nat, pc: CallerPc)
    requires Inv(s) && SlotEdit(s, b, i, slot) && b in s.blocks && i < |s.blocks[b].slots|
    requires cid in s.callers && s.callers[cid].cur == Cur(b) && PcOk(Edited(s.blocks[b], i, slot), pc)
    ensures Inv(Goto(SetSlot(s, b, i, slot), cid, pc))
  {
    hide PcOk, GotOk, BlockOk, TokenOk, StageOk, SlotOk, SlotKept;
    var m := SetSlot(s, b, i, slot);
    EditBlocks(s, b, i, slot);
    EditTokens(s, b, i, slot);
    var r := Goto(m, cid, pc);
    SameHistory(s, r);
    SameBlocksBut(m, r);
    forall c | c in r.callers ensures CallerOk(r, c) {
      assert CallerOk(s, c) && CallerOk(s, cid);
    }
  }

  /** An executor, the daemon or the caller's timeout edits a slot that was sent. */
  lemma EditInv(s: System, b: nat, i: nat, slot: Slot)
    requires Inv(s) && SlotEdit(s, b, i, slot) && i < s.blocks[b].sent && !slot.st.Blank?
    ensures Inv(SetSlot(s, b, i, slot))
  {
    hide GotOk, BlockOk, TokenOk, StageOk, SlotOk;
    var r := SetSlot(s, b, i, slot);
    EditBlocks(s, b, i, slot);
    EditTokens(s, b, i, slot);
    SameHistory(s, r);
    forall c | c in r.callers ensures CallerOk(r, c) {
      assert CallerOk(s, c);
      if s.callers[c].cur == Cur(b) && s.callers[c].pc.Addressing? {
        AddressedStays(s.blocks[b], i, slot, s.callers[c].pc.p);
      }
    }
  }

  /** Blocks and tokens do not look at callers. */
  lemma SameBlocksBut(m: System, r: System)
    requires forall b :: b in m.blocks ==> BlockOk(m, b)
    requires forall t :: t in m.tokens ==> TokenOk(m, t)
    requires r.blocks == m.blocks && r.tokens == m.tokens && r.ran == m.ran && r.asked == m.asked
    requires r.nextBlock >= m.nextBlock && r.nextToken >= m.nextToken
    ensures forall b :: b in r.blocks ==> BlockOk(r, b)
    ensures forall t :: t in r.tokens ==> TokenOk(r, t)
  {
    hide Addressed;
    forall b | b in r.blocks ensures BlockOk(r, b) {
      assert BlockOk(m, b);
      forall i | 0 <= i < r.blocks[b].sent ensures SlotOk(r, b, i) {
        assert SlotOk(m, b, i);
      }
    }
    forall t | t in r.tokens ensures TokenOk(r, t) {
      assert TokenOk(m, t);
    }
  }

  // ---------------------------------------------------------------- sending

  lemma AddressInv(s: System, cid: nat, p: nat)
    requires Inv(s)
    ensures Inv(SendStep(s, Address(cid, p)))
  {
    hide StageOk, SlotOk, Unique, HistoryOk, Addressed;
    var r := SendStep(s, Address(cid, p));
    if r != s {
      var b := s.callers[cid].cur.b;
      var k := s.blocks[b];
      assert BlockOk(s, b);
      forall t | t in s.tokens && s.tokens[t].b == b ensures s.tokens[t].i != k.sent {
        assert TokenOk(s, t);
      }
      AddressedStays(k, k.sent, Slot(Blank, Proc(p)), p);
      EditGoto(s, b, k.sent, Slot(Blank, Proc(p)), cid, Addressing(p));
    }
  }

  /** Noting that a process was addressed. */
  lemma TriedInv(s: System, b: nat)
    requires Inv(s) && b in s.blocks
    requires forall c :: c in s.callers && s.callers[c].cur == Cur(b) ==>
      PcOk(s.blocks[b].(tried := true), s.callers[c].pc)
    ensures Inv(s.(blocks := s.blocks[b := s.blocks[b].(tried := true)]))
  {
    hide GotOk, PcOk;
    var r := s.(blocks := s.blocks[b := s.blocks[b].(tried := true)]);
    SameHistory(s, r);
    forall c | c in r.blocks ensures BlockOk(r, c) {
      assert BlockOk(s, c);
      forall i | 0 <= i < r.blocks[c].sent ensures SlotOk(r, c, i) {
        assert SlotOk(s, c, i);
      }
      AddressedSame(s.blocks[c], r.blocks[c]);
    }
    forall t | t in r.tokens ensures TokenOk(r, t) {
      assert TokenOk(s, t);
    }
    forall c | c in r.callers ensures CallerOk(r, c) {
      assert CallerOk(s, c);
    }
  }

  lemma AddressedSame(k: Block, m: Block)
    requires k.slots == m.slots && k.sent == m.sent
    ensures forall p: nat :: Addressed(k, p) <==> Addressed(m, p)
  {
  }

  lemma RefuseInv(s: System, cid: nat, code: int)
    requires Inv(s)
    ensures Inv(SendStep(s, Refuse(cid, code)))
  {
    hide StageOk, SlotOk, Unique, HistoryOk, Addressed;
    var r := SendStep(s, Refuse(cid, code));
    if r != s {
      var b := s.callers[cid].cur.b;
      var k := s.blocks[b];
      assert CallerOk(s, cid);
      var m := s.(blocks := s.blocks[b := k.(tried := true)]);
      forall c | c in s.callers && s.callers[c].cur == Cur(b) ensures PcOk(k.(tried := true), s.callers[c].pc) {
        assert CallerOk(s, c);
        AddressedSame(k, k.(tried := true));
      }
      TriedInv(s, b);
      assert BlockOk(m, b);
      forall t | t in m.tokens && m.tokens[t].b == b ensures m.tokens[t].i != k.sent {
        assert TokenOk(m, t);
      }
      EditGoto(m, b, k.sent, Slot(Failed(code), Nobody), cid, Sending);
      assert r == Goto(SetSlot(m, b, k.sent, Slot(Failed(code), Nobody)), cid, Sending);
    }
  }

  function Handed(k: Block): Block { k.(sent := k.sent + 1, tried := true) }

  lemma AddressedMore(k: Block, p: nat)
    requires k.sent < |k.slots|
    ensures Addressed(Handed(k), p) <==> Addressed(k, p) || k.slots[k.sent].hp == Proc(p)
  {
    if k.slots[k.sent].hp == Proc(p) { assert Handed(k).slots[k.sent].hp == Proc(p); }
  }

  lemma EnqueueBlocks(s: System, cid: nat, b: nat, p: nat)
    requires Inv(s) && cid in s.callers && s.callers[cid] == Caller(Addressing(p), Cur(b)) && b in s.blocks
    ensures forall c :: c in SendStep(s, Enqueue(cid)).blocks ==> BlockOk(SendStep(s, Enqueue(cid)), c)
  {
    hide HistoryOk, Unique, TokenOk, Addressed;
    var r := SendStep(s, Enqueue(cid));
    var k := s.blocks[b];
    assert CallerOk(s, cid);
    forall c | c in r.blocks ensures BlockOk(r, c) {
      assert BlockOk(s, c);
      forall i | 0 <= i < r.blocks[c].sent ensures SlotOk(r, c, i) {
        if i < s.blocks[c].sent { assert SlotOk(s, c, i); }
      }
      forall j | 0 <= j < |s.ran| && s.ran[j].call == r.blocks[c].call ensures Addressed(r.blocks[c], s.ran[j].proc) {
        AddressedMore(k, s.ran[j].proc);
      }
      forall i | 0 <= i < k.sent ensures k.slots[i].hp != Proc(p) {
        NotAddressed(k, p, i);
      }
    }
  }

  lemma NotAddressed(k: Block, p: nat, i: nat)
    requires !Addressed(k, p) && i < k.sent && i < |k.slots|
    ensures k.slots[i].hp != Proc(p)
  {
  }

  lemma NotRun(s: System, b: nat, p: nat)
    requires Inv(s) && b in s.blocks && !Addressed(s.blocks[b], p)
    ensures Execution(s.blocks[b].call, p) !in s.ran
  {
    hide HistoryOk, Unique, TokenOk, CallerOk, Addressed;
    assert BlockOk(s, b);
  }

  lemma EnqueueTokens(s: System, cid: nat, b: nat, p: nat)
    requires Inv(s) && cid in s.callers && s.callers[cid] == Caller(Addressing(p), Cur(b)) && b in s.blocks
    ensures forall t :: t in SendStep(s, Enqueue(cid)).tokens ==> TokenOk(SendStep(s, Enqueue(cid)), t)
    ensures forall t :: t in s.tokens ==> t < s.nextToken && (s.tokens[t].b == b ==> s.tokens[t].i < s.blocks[b].sent)
  {
    hide HistoryOk, Unique, BlockOk, Addressed;
    var r := SendStep(s, Enqueue(cid));
    assert CallerOk(s, cid);
    NotRun(s, b, p);
    forall t | t in s.tokens ensures t < s.nextToken && (s.tokens[t].b == b ==> s.tokens[t].i < s.blocks[b].sent) {
      assert TokenOk(s, t);
    }
    forall t | t in r.tokens ensures TokenOk(r, t) {
      if t in s.tokens { assert TokenOk(s, t); }
    }
  }

  lemma EnqueueInv(s: System, cid: nat)
    requires Inv(s)
    ensures Inv(SendStep(s, Enqueue(cid)))
  {
    hide GotOk, BlockOk, TokenOk;
    var r := SendStep(s, Enqueue(cid));
    if r != s {
      var b := s.callers[cid].cur.b;
      SameHistory(s, r);
      EnqueueBlocks(s, cid, b, s.callers[cid].pc.p);
      EnqueueTokens(s, cid, b, s.callers[cid].pc.p);
      forall c | c in r.callers ensures CallerOk(r, c) {
        assert CallerOk(s, c) && CallerOk(s, cid);
      }
    }
  }

  lemma EndSendInv(s: System, cid: nat)
    requires Inv(s)
    ensures Inv(SendStep(s, EndSend(cid)))
  {
    hide GotOk, Unique, Addressed, StageOk;
    var r := SendStep(s, EndSend(cid));
    if r != s {
      var b := s.callers[cid].cur.b;
      assert CallerOk(s, cid) && BlockOk(s, b);
      if s.blocks[b].sent == 0 {
        GotoInv(s, cid, Reading);
      } else {
        CutInv(s, cid, b);
      }
    }
  }

  /** The caller forgets the slots that it did not use. */
  lemma CutInv(s: System, cid: nat, b: nat)
    requires Inv(s) && cid in s.callers && s.callers[cid] == Caller(Sending, Cur(b))
    requires b in s.blocks && s.blocks[b].sent > 0
    ensures Inv(Goto(s.(blocks := s.blocks[b := s.blocks[b].(retnum := s.blocks[b].sent)]), cid, Waiting))
  {
    hide GotOk, StageOk;
    var r := Goto(s.(blocks := s.blocks[b := s.blocks[b].(retnum := s.blocks[b].sent)]), cid, Waiting);
    SameHistory(s, r);
    forall c | c in r.blocks ensures BlockOk(r, c) {
      assert BlockOk(s, c);
      forall i | 0 <= i < r.blocks[c].sent ensures SlotOk(r, c, i) {
        assert SlotOk(s, c, i);
      }
      AddressedSame(s.blocks[c], r.blocks[c]);
    }
    hide Addressed, SlotOk;
    CutTokens(s, r, b);
    forall c | c in r.callers ensures CallerOk(r, c) {
      assert CallerOk(s, c) && CallerOk(s, cid);
    }
  }

  lemma CutTokens(s: System, r: System, b: nat)
    requires Inv(s) && b in s.blocks && r.blocks == s.blocks[b := s.blocks[b].(retnum := s.blocks[b].sent)]
    requires r.tokens == s.tokens && r.ran == s.ran && r.nextToken == s.nextToken
    ensures forall t :: t in r.tokens ==> TokenOk(r, t)
  {
    hide HistoryOk, Unique, BlockOk, CallerOk;
    forall t | t in r.tokens ensures TokenOk(r, t) {
      assert TokenOk(s, t);
    }
  }

  // ---------------------------------------------------------------- waiting

  /** A block with sent slots has a first slot, addressed to some process. */
  lemma FirstSlot(s: System, b: nat)
    requires Inv(s) && b in s.blocks && s.blocks[b].sent > 0
    ensures s.blocks[b].slots != [] && s.blocks[b].slots[0].hp.Proc? && 0 < s.blocks[b].retnum
  {
    hide HistoryOk, Unique, CallerOk, TokenOk, Addressed;
    assert BlockOk(s, b) && SlotOk(s, b, 0);
  }

  lemma WaitInv(s: System, e: Event)
    requires Inv(s) && (e.Wake? || e.TimeOut? || e.Mark? || e.Deliver?)
    ensures Inv(WaitStep(s, e))
  {
    hide BlockOk, TokenOk, Unique, HistoryOk;
    var r := WaitStep(s, e);
    if r != s {
      var b := s.callers[e.cid].cur.b;
      var k := s.blocks[b];
      assert CallerOk(s, e.cid);
      if k.sent > 0 { FirstSlot(s, b); }
      match e
      case Wake(cid) => GotoInv(s, cid, Reading);
      case TimeOut(cid) => GotoInv(s, cid, Marking(0));
      case Mark(cid) =>
        var pc := s.callers[cid].pc;
        if pc.i >= k.retnum { GotoInv(s, cid, Reading); } else { MarkInv(s, cid, b, pc.i); }
      case Deliver(cid) => DeliverInv(s, cid, b);
    }
  }

  lemma MarkInv(s: System, cid: nat, b: nat, i: nat)
    requires Inv(s) && cid in s.callers && s.callers[cid] == Caller(Marking(i), Cur(b)) && b in s.blocks
    requires i < s.blocks[b].retnum
    ensures Inv(Goto(Swap(s, b, i, Failed(WAIT_TIMED_OUT)), cid, Marking(i + 1)))
  {
    hide HistoryOk, Unique, Addressed;
    assert CallerOk(s, cid) && BlockOk(s, b) && SlotOk(s, b, i);
    var k := s.blocks[b];
    if k.slots[i].st.Blank? {
      var slot := k.slots[i].(st := Failed(WAIT_TIMED_OUT));
      forall t | t in s.tokens && s.tokens[t].b == b && s.tokens[t].i == i
        ensures StageOk(s.ran, Edited(k, i, slot), s.tokens[t]) {
        assert TokenOk(s, t);
      }
      EditGoto(s, b, i, slot, cid, Marking(i + 1));
    } else {
      GotoInv(s, cid, Marking(i + 1));
    }
  }

  lemma DeliverInv(s: System, cid: nat, b: nat)
    requires Inv(s) && cid in s.callers && s.callers[cid] == Caller(Reading, Cur(b)) && b in s.blocks
    ensures Inv(WaitStep(s, Deliver(cid)))
  {
    hide Unique, Addressed, TokenOk, StageOk;
    var k := s.blocks[b];
    assert CallerOk(s, cid) && BlockOk(s, b);
    if k.sent > 0 { assert SlotOk(s, b, 0); }
    var r := WaitStep(s, Deliver(cid));
    var m := s.(got := r.got);
    forall i | 0 <= i < |m.got| ensures GotOk(m, m.got[i]) {
      if i < |s.got| { assert GotOk(s, s.got[i]); }
    }
    hide BlockOk, GotOk;
    SameBlocks(s, m);
    forall c | c in m.callers ensures CallerOk(m, c) {
      assert CallerOk(s, c);
    }
    GotoInv(m, cid, Rest);
  }

  // ---------------------------------------------------------------- executors and the daemon

  /** A request that goes on to another stage, or away. */
  lemma TokenInv(s: System, t: nat, stage: Stage)
    requires Inv(s) && t in s.tokens
    requires s.tokens[t].b in s.blocks && s.tokens[t].i < |s.blocks[s.tokens[t].b].slots| ==>
      StageOk(s.ran, s.blocks[s.tokens[t].b], s.tokens[t].(stage := stage))
    ensures Inv(Move(s, t, stage)) && Inv(Drop(s, t))
  {
    hide PcOk, SlotOk, StageOk, GotOk, Addressed;
    var r := Move(s, t, stage);
    forall u | u in r.tokens ensures TokenOk(r, u) {
      assert TokenOk(s, u);
    }
    TokensOnly(s, r);
    var d := Drop(s, t);
    forall u | u in d.tokens ensures TokenOk(d, u) {
      assert TokenOk(s, u);
    }
    TokensOnly(s, d);
  }

  lemma TokensOnly(s: System, r: System)
    requires Inv(s) && r == s.(tokens := r.tokens) && r.tokens.Keys <= s.tokens.Keys
    requires forall t :: t in r.tokens ==> r.tokens[t].b == s.tokens[t].b && r.tokens[t].i == s.tokens[t].i
    requires forall t :: t in r.tokens ==> TokenOk(r, t)
    ensures Inv(r)
  {
    hide PcOk, StageOk, GotOk, Addressed, TokenOk;
    SameHistory(s, r);
    forall b | b in r.blocks ensures BlockOk(r, b) {
      assert BlockOk(s, b);
      forall i | 0 <= i < r.blocks[b].sent ensures SlotOk(r, b, i) {
        assert SlotOk(s, b, i);
      }
    }
    forall c | c in r.callers ensures CallerOk(r, c) {
      assert CallerOk(s, c);
    }
  }

  /** The executor finds the slot that was sent to it. */
  lemma {:induction false} FindsSlot(k: Block, p: nat, i: nat, j: nat)
    requires j <= i < k.sent <= k.retnum && k.retnum <= |k.slots| && k.slots[i].hp == Proc(p)
    requires forall x, y :: 0 <= x < y < k.sent ==> k.slots[x].hp != k.slots[y].hp
    ensures FindSlot(k, p, j) == i
    decreases i - j
  {
    if j < i { FindsSlot(k, p, i, j + 1); }
  }

  lemma TokenSlot(s: System, t: nat)
    requires Inv(s) && t in s.tokens
    ensures s.tokens[t].b in s.blocks
    ensures var k := s.tokens[t]; var b := s.blocks[k.b];
            && k.i < b.sent <= b.retnum <= |b.slots| && b.slots[k.i].hp == Proc(k.p)
            && FindSlot(b, k.p, 0) == k.i && StageOk(s.ran, b, k) && SlotOk(s, k.b, k.i)
            && Addressed(b, k.p) && b.call < |s.asked|
  {
    hide HistoryOk, Unique, CallerOk, StageOk, SlotOk;
    var k := s.tokens[t];
    assert TokenOk(s, t) && BlockOk(s, k.b);
    assert SlotOk(s, k.b, k.i);
    FindsSlot(s.blocks[k.b], k.p, k.i, 0);
  }

  /** No two requests for one slot. */
  lemma OneToken(s: System, t: nat)
    requires Inv(s) && t in s.tokens
    ensures var d := Drop(s, t);
            forall u :: u in d.tokens && d.tokens[u].b == s.tokens[t].b ==> d.tokens[u].i != s.tokens[t].i
  {
    hide HistoryOk, CallerOk, StageOk, SlotOk, BlockOk, TokenOk;
  }

  lemma DropInv(s: System, t: nat)
    requires Inv(s)
    ensures Inv(Drop(s, t))
  {
    hide HistoryOk, CallerOk, StageOk, SlotOk, BlockOk;
    if t in s.tokens {
      assert TokenOk(s, t);
      TokenInv(s, t, s.tokens[t].stage);
    } else {
      assert s.tokens - {t} == s.tokens;
    }
  }

  /** The slot of a request that is gone gets its answer. */
  lemma SettleInv(s: System, t: nat, st: Status)
    requires Inv(s) && t in s.tokens
    ensures s.tokens[t].b in s.blocks && s.tokens[t].i < |s.blocks[s.tokens[t].b].slots|
    ensures var k := s.tokens[t]; var slot := s.blocks[k.b].slots[k.i].(st := st);
            !st.Blank? && SlotOk(SetSlot(s, k.b, k.i, slot), k.b, k.i) ==> Inv(Drop(SetSlot(s, k.b, k.i, slot), t))
  {
    hide HistoryOk, CallerOk, StageOk, Unique;
    TokenSlot(s, t);
    var k := s.tokens[t];
    var slot := s.blocks[k.b].slots[k.i].(st := st);
    var d := Drop(s, t);
    DropInv(s, t);
    OneToken(s, t);
    if !st.Blank? && SlotOk(SetSlot(s, k.b, k.i, slot), k.b, k.i) {
      EditInv(d, k.b, k.i, slot);
      assert Drop(SetSlot(s, k.b, k.i, slot), t) == SetSlot(d, k.b, k.i, slot);
    }
  }

  lemma CompeteInv(s: System, t: nat)
    requires Inv(s)
    ensures Inv(ExecutorStep(s, Compete(t)))
  {
    hide HistoryOk, CallerOk, Unique, Addressed;
    if t in s.tokens && s.tokens[t].stage.Entering? {
      TokenSlot(s, t);
      var k := s.tokens[t];
      var b := s.blocks[k.b];
      DropInv(s, t);
      if b.slots[k.i].st.Blank? {
        WinInv(s, t);
      }
    }
  }

  lemma WinInv(s: System, t: nat)
    requires Inv(s) && t in s.tokens && s.tokens[t].stage.Entering? && s.tokens[t].b in s.blocks
    requires s.tokens[t].stage.s == s.tokens[t].i < s.blocks[s.tokens[t].b].sent
    requires s.tokens[t].i < |s.blocks[s.tokens[t].b].slots| && s.blocks[s.tokens[t].b].slots[s.tokens[t].i].st.Blank?
    ensures Inv(Move(Swap(s, s.tokens[t].b, s.tokens[t].i, Locked), t, Won(s.tokens[t].i, s.tokens[t].stage.out)))
  {
    hide HistoryOk, Addressed, PcOk, CallerOk, Unique, TokenOk;
    var k := s.tokens[t];
    var slot := s.blocks[k.b].slots[k.i].(st := Locked);
    var m := SetSlot(s, k.b, k.i, slot);
    TokenSlot(s, t);
    DropInv(s, t);
    OneToken(s, t);
    var d := Drop(s, t);
    EditInv(d, k.b, k.i, slot);
    var e := SetSlot(d, k.b, k.i, slot);
    var r := Move(m, t, Won(k.i, k.stage.out));
    assert r == e.(tokens := e.tokens[t := k.(stage := Won(k.i, k.stage.out))]);
    WonOk(s, r, t);
    AddBack(e, r, t);
  }

  lemma WonOk(s: System, r: System, t: nat)
    requires Inv(s) && t in s.tokens && s.tokens[t].stage.Entering? && s.tokens[t].b in s.blocks
    requires s.tokens[t].i < |s.blocks[s.tokens[t].b].slots|
    requires var k := s.tokens[t];
      r == Move(SetSlot(s, k.b, k.i, s.blocks[k.b].slots[k.i].(st := Locked)), t, Won(k.i, k.stage.out))
    ensures TokenOk(r, t)
  {
    hide HistoryOk, Addressed, PcOk, Unique, BlockOk, CallerOk, SlotOk;
    assert TokenOk(s, t);
  }

  lemma AddBack(e: System, r: System, t: nat)
    requires Inv(e) && t !in e.tokens && t in r.tokens && r == e.(tokens := e.tokens[t := r.tokens[t]])
    requires TokenOk(r, t)
    requires forall u :: u in e.tokens && e.tokens[u].b == r.tokens[t].b ==> e.tokens[u].i != r.tokens[t].i
    ensures Inv(r)
  {
    hide PcOk, StageOk, SlotOk, GotOk, Addressed, HistoryOk;
    SameBlocksAdd(e, r, t);
    SameHistory(e, r);
    forall c | c in r.callers ensures CallerOk(r, c) {
      assert CallerOk(e, c);
    }
  }

  lemma SameBlocksAdd(e: System, r: System, t: nat)
    requires Inv(e) && t in r.tokens && r == e.(tokens := e.tokens[t := r.tokens[t]])
    requires TokenOk(r, t)
    ensures forall b :: b in r.blocks ==> BlockOk(r, b)
    ensures forall u :: u in r.tokens ==> TokenOk(r, u)
  {
    hide PcOk, StageOk, GotOk, Addressed, HistoryOk, CallerOk;
    forall b | b in r.blocks ensures BlockOk(r, b) {
      assert BlockOk(e, b);
      forall i | 0 <= i < r.blocks[b].sent ensures SlotOk(r, b, i) {
        assert SlotOk(e, b, i);
      }
    }
    forall u | u in r.tokens ensures TokenOk(r, u) {
      if u != t { assert TokenOk(e, u); }
    }
  }

  lemma PublishInv(s: System, t: nat)
    requires Inv(s)
    ensures Inv(ExecutorStep(s, Publish(t)))
  {
    hide HistoryOk, CallerOk, Unique, Addressed;
    if t in s.tokens && s.tokens[t].stage.Won? {
      TokenSlot(s, t);
      SettleInv(s, t, Ready(s.tokens[t].stage.out));
    }
  }

  lemma CancelInv(s: System, t: nat)
    requires Inv(s)
    ensures Inv(ExecutorStep(s, Cancel(t)))
  {
    hide HistoryOk, CallerOk, Unique, Addressed;
    if t in s.tokens && s.tokens[t].stage.Found? {
      TokenSlot(s, t);
      DropInv(s, t);
      SettleInv(s, t, Failed(CANCELLED));
    }
  }

  // ---------------------------------------------------------------- executing the function

  function Executed(s: System, t: nat, v: nat): System
    requires t in s.tokens && s.tokens[t].stage.Checked? && s.tokens[t].b in s.blocks
  {
    var k := s.tokens[t];
    var b := s.blocks[k.b];
    Move(s.(ran := s.ran + [Execution(b.call, k.p)]), t, Ran(k.stage.ctrl, k.stage.s, Output(b.call, k.p, b.args, v)))
  }

  lemma ExecuteBlocks(s: System, t: nat, v: nat)
    requires Inv(s) && t in s.tokens && s.tokens[t].stage.Checked? && s.tokens[t].b in s.blocks
    ensures forall b :: b in s.blocks ==> BlockOk(Executed(s, t, v), b)
  {
    hide HistoryOk, CallerOk, Addressed, TokenOk;
    var r := Executed(s, t, v);
    var k := s.tokens[t];
    TokenSlot(s, t);
    forall b | b in r.blocks ensures BlockOk(r, b) {
      assert BlockOk(s, b);
      forall i | 0 <= i < r.blocks[b].sent ensures SlotOk(r, b, i) {
        assert SlotOk(s, b, i);
      }
    }
  }

  lemma ExecuteTokens(s: System, t: nat, v: nat)
    requires Inv(s) && t in s.tokens && s.tokens[t].stage.Checked? && s.tokens[t].b in s.blocks
    ensures forall u :: u in s.tokens ==> TokenOk(Executed(s, t, v), u)
  {
    hide HistoryOk, CallerOk, Addressed, SlotOk;
    var r := Executed(s, t, v);
    TokenSlot(s, t);
    assert BlockOk(s, s.tokens[t].b);
    forall u | u in r.tokens ensures TokenOk(r, u) {
      assert TokenOk(s, u);
    }
  }

  lemma ExecuteInv(s: System, t: nat, v: nat)
    requires Inv(s)
    ensures Inv(ExecutorStep(s, Execute(t, v)))
  {
    hide BlockOk, TokenOk, SlotOk, Addressed, PcOk;
    if t in s.tokens && s.tokens[t].stage.Checked? {
      TokenSlot(s, t);
      ExecuteBlocks(s, t, v);
      ExecuteTokens(s, t, v);
      var r := Executed(s, t, v);
      forall c | c in r.callers ensures CallerOk(r, c) {
        assert CallerOk(s, c);
      }
      forall i | 0 <= i < |r.got| ensures GotOk(r, r.got[i]) {
        assert GotOk(s, s.got[i]);
      }
    }
  }

  lemma ExecutorInv(s: System, e: Event)
    requires Inv(s)
    requires e.Take? || e.Check? || e.Execute? || e.Recheck? || e.Compete? || e.Publish? || e.Die? || e.TakeBack?
      || e.Search? || e.Cancel?
    ensures Inv(ExecutorStep(s, e))
  {
    hide HistoryOk, CallerOk, Unique, Addressed, BlockOk, SlotOk, TokenOk;
    if e.t in s.tokens {
      TokenSlot(s, e.t);
      var k := s.tokens[e.t];
      match e
      case Take(t) => if k.stage.Queued? { TokenInv(s, t, Taken); }
      case TakeBack(t) => if k.stage.Queued? { TokenInv(s, t, Cancelling); }
      case Check(t) => if k.stage.Taken? { TokenInv(s, t, Checked(s.blocks[k.b].serial, k.i)); }
      case Execute(t, v) => ExecuteInv(s, t, v);
      case Recheck(t) => if k.stage.Ran? { TokenInv(s, t, Entering(k.i, k.stage.out)); DropInv(s, t); }
      case Compete(t) => CompeteInv(s, t);
      case Publish(t) => PublishInv(s, t);
      case Search(t) => if k.stage.Cancelling? { TokenInv(s, t, Found(k.i)); DropInv(s, t); }
      case Cancel(t) => CancelInv(s, t);
      case Die(t) => DropInv(s, t);
    }
  }

  // ---------------------------------------------------------------- every event

  lemma DestroyInv(s: System, b: nat)
    requires Inv(s)
    ensures Inv(Step(s, Destroy(b)))
  {
    hide StageOk, GotOk, PcOk, Addressed;
    var r := Step(s, Destroy(b));
    if r != s {
      SameHistory(s, r);
      forall c | c in r.blocks ensures BlockOk(r, c) {
        assert BlockOk(s, c);
        forall i | 0 <= i < r.blocks[c].sent ensures SlotOk(r, c, i) {
          assert SlotOk(s, c, i);
        }
        AddressedSame(s.blocks[c], r.blocks[c]);
      }
      DestroyRest(s, r, b);
    }
  }

  lemma DestroyRest(s: System, r: System, b: nat)
    requires Inv(s) && b in s.blocks && r == s.(blocks := s.blocks[b := s.blocks[b].(alive := false)])
    ensures forall t :: t in r.tokens ==> TokenOk(r, t)
    ensures forall c :: c in r.callers ==> CallerOk(r, c)
  {
    hide GotOk, SlotOk, BlockOk, Addressed;
    forall t | t in r.tokens ensures TokenOk(r, t) {
      assert TokenOk(s, t);
    }
    AddressedSame(s.blocks[b], r.blocks[b]);
    forall c | c in r.callers ensures CallerOk(r, c) {
      assert CallerOk(s, c);
    }
  }

  lemma StepInv(s: System, e: Event)
    requires Inv(s)
    ensures Inv(Step(s, e))
  {
    hide Inv, AllocStep, SendStep, WaitStep, ExecutorStep;
    match e
    case Call(cid, args, retnum, fits, junk) => AllocInv(s, cid, args, retnum, fits, junk);
    case Address(cid, p) => AddressInv(s, cid, p);
    case Refuse(cid, code) => RefuseInv(s, cid, code);
    case Enqueue(cid) => EnqueueInv(s, cid);
    case EndSend(cid) => EndSendInv(s, cid);
    case Wake(_) => WaitInv(s, e);
    case TimeOut(_) => WaitInv(s, e);
    case Mark(_) => WaitInv(s, e);
    case Deliver(_) => WaitInv(s, e);
    case Leave(cid) => LeaveInv(s, cid);
    case Destroy(b) => DestroyInv(s, b);
    case _ => ExecutorInv(s, e);
  }

  lemma LeaveInv(s: System, cid: nat)
    requires Inv(s)
    ensures Inv(Goto(s, cid, Gone))
  {
    hide BlockOk, TokenOk, Unique, HistoryOk;
    if cid in s.callers { assert CallerOk(s, cid); }
    GotoInv(s, cid, Gone);
  }

  // ---------------------------------------------------------------- runs

  function After(s: System, events: seq<Event>): System
    decreases |events|
  {
    if events == [] then s else After(Step(s, events[0]), events[1..])
  }

  lemma {:induction false} RunInv(s: System, events: seq<Event>)
    requires Inv(s)
    ensures Inv(After(s, events))
    decreases |events|
  {
    hide Inv, Step;
    if events != [] {
      StepInv(s, events[0]);
      RunInv(Step(s, events[0]), events[1..]);
    }
  }

  /** In every run each process runs the function at most once per call. */
  lemma AtMostOnce(events: seq<Event>)
    ensures forall i, j :: 0 <= i < j < |After(START, events).ran| ==>
      After(START, events).ran[i] != After(START, events).ran[j]
  {
    hide Step, BlockOk, TokenOk, CallerOk;
    StartInv();
    RunInv(START, events);
  }

  /**
   * In every run a value delivered to a call was computed for that call, from its own arguments, if
   * and only if the call addressed some process. Otherwise it is an earlier call's value.
   */
  lemma DeliveredIsOwn(events: seq<Event>, i: nat)
    requires i < |After(START, events).got| && After(START, events).got[i].result.Value?
    ensures var s := After(START, events); var g := s.got[i];
            && g.call < |s.asked|
            && (g.tried <==> g.result.out.call == g.call)
            && (!g.tried <==> g.result.out.call < g.call)
            && (g.tried ==> g.result.out.args == s.asked[g.call])
  {
    hide Step, BlockOk, TokenOk, CallerOk;
    StartInv();
    RunInv(START, events);
    assert GotOk(After(START, events), After(START, events).got[i]);
  }

  // ---------------------------------------------------------------- leaving EMPTY

  /** The four-state life of a slot, with the event that may take each arrow. */
  predicate Arrow(was: Status, now: Status, e: Event) {
    || now == was
    || (was.Blank? && now.Locked? && e.Compete?)
    || (was.Blank? && now == Failed(WAIT_TIMED_OUT) && e.Mark?)
    || (was.Blank? && now == Failed(CANCELLED) && e.Cancel?)
    || (was.Locked? && now.Ready? && e.Publish?)
  }

  /** Slot i of block b after an event of the same call. */
  ghost predicate Lives(s: System, r: System, e: Event, b: nat, i: nat)
    requires b in s.blocks
  {
    && b in r.blocks
    && r.blocks[b].call == s.blocks[b].call
    && i < s.blocks[b].sent <= r.blocks[b].sent && i < |r.blocks[b].slots| && i < |s.blocks[b].slots|
    && r.blocks[b].slots[i].hp == s.blocks[b].slots[i].hp
    && Arrow(s.blocks[b].slots[i].st, r.blocks[b].slots[i].st, e)
  }

  lemma SendLife(s: System, e: Event, b: nat, i: nat)
    requires Inv(s) && b in s.blocks && i < s.blocks[b].sent
    requires e.Address? || e.Refuse? || e.Enqueue? || e.EndSend?
    ensures Lives(s, SendStep(s, e), e, b, i)
  {
    hide SlotOk, TokenOk, CallerOk, Unique, HistoryOk, Addressed;
    assert BlockOk(s, b);
  }

  lemma WaitLife(s: System, e: Event, b: nat, i: nat)
    requires Inv(s) && b in s.blocks && i < s.blocks[b].sent
    requires e.Wake? || e.TimeOut? || e.Mark? || e.Deliver?
    ensures Lives(s, WaitStep(s, e), e, b, i)
  {
    hide SlotOk, TokenOk, CallerOk, Unique, HistoryOk, AllAnswered, Addressed;
    assert BlockOk(s, b);
  }

  lemma ExecutorLife(s: System, e: Event, b: nat, i: nat)
    requires Inv(s) && b in s.blocks && i < s.blocks[b].sent
    requires e.Take? || e.Check? || e.Execute? || e.Recheck? || e.Compete? || e.Publish? || e.Die? || e.TakeBack?
      || e.Search? || e.Cancel?
    ensures Lives(s, ExecutorStep(s, e), e, b, i)
  {
    hide SlotOk, TokenOk, CallerOk, Unique, HistoryOk, FindSlot, Addressed;
    assert BlockOk(s, b);
    if e.t in s.tokens { TokenSlot(s, e.t); }
  }

  lemma AllocLife(s: System, e: Event, b: nat, i: nat)
    requires Inv(s) && b in s.blocks && i < s.blocks[b].sent && e.Call?
    ensures var r := Step(s, e);
            b in r.blocks && (r.blocks[b].call == s.blocks[b].call ==> Lives(s, r, e, b, i))
  {
    hide SlotOk, TokenOk, CallerOk, Unique, HistoryOk, IsBad, Addressed;
    assert BlockOk(s, b);
    CallsSmall(s);
  }

  /** During a call a sent slot leaves EMPTY once, by one winner, and its answer is final. */
  lemma SlotLife(s: System, e: Event, b: nat, i: nat)
    requires Inv(s) && b in s.blocks && i < s.blocks[b].sent
    ensures var r := Step(s, e);
            && b in r.blocks
            && (r.blocks[b].call == s.blocks[b].call ==>
                  && i < r.blocks[b].sent && i < |r.blocks[b].slots| && i < |s.blocks[b].slots|
                  && r.blocks[b].slots[i].hp == s.blocks[b].slots[i].hp
                  && Arrow(s.blocks[b].slots[i].st, r.blocks[b].slots[i].st, e))
  {
    hide SlotOk, TokenOk, CallerOk, Unique, HistoryOk, AllocStep, SendStep, WaitStep, ExecutorStep, InUse, Addressed;
    assert BlockOk(s, b);
    if e.Call? { AllocLife(s, e, b, i); }
    else if e.Address? || e.Refuse? || e.Enqueue? || e.EndSend? { SendLife(s, e, b, i); }
    else if e.Wake? || e.TimeOut? || e.Mark? || e.Deliver? { WaitLife(s, e, b, i); }
    else if !e.Leave? && !e.Destroy? { ExecutorLife(s, e, b, i); }
  }

  // ---------------------------------------------------------------- cancelled means never ran

  /** p will not run the function for this call any more. */
  ghost predicate Never(s: System, call: nat, p: nat) {
    && call < |s.asked|
    && Execution(call, p) !in s.ran
    && (forall t {:trigger s.tokens[t]} ::
         t in s.tokens && s.tokens[t].b in s.blocks && s.blocks[s.tokens[t].b].call == call ==>
          s.tokens[t].p != p)
    && (forall b {:trigger s.blocks[b]} :: b in s.blocks && s.blocks[b].call == call ==> Addressed(s.blocks[b], p))
  }

  lemma CancelledIsNever(s: System, b: nat, i: nat)
    requires Inv(s) && b in s.blocks && i < s.blocks[b].sent && i < |s.blocks[b].slots|
    requires s.blocks[b].slots[i].st == Failed(CANCELLED)
    ensures s.blocks[b].slots[i].hp.Proc?
    ensures Never(s, s.blocks[b].call, s.blocks[b].slots[i].hp.p)
  {
    hide HistoryOk, CallerOk, TokenOk;
    var k := s.blocks[b];
    assert BlockOk(s, b) && SlotOk(s, b, i);
    var p := k.slots[i].hp.p;
    assert Addressed(k, p);
    forall t | t in s.tokens && s.tokens[t].b in s.blocks && s.blocks[s.tokens[t].b].call == k.call
      ensures s.tokens[t].p != p {
      TokenSlot(s, t);
    }
  }

  /** No step but libsrpc_req_alloc makes blocks or changes their call; only executors run the function. */
  ghost predicate SameCalls(s: System, r: System) {
    && r.blocks.Keys == s.blocks.Keys
    && r.asked == s.asked
    && forall b :: b in s.blocks ==> r.blocks[b].call == s.blocks[b].call
  }

  lemma SendCalls(s: System, e: Event)
    requires e.Address? || e.Refuse? || e.Enqueue? || e.EndSend?
    ensures SameCalls(s, SendStep(s, e))
  {
    hide Addressed;
  }

  lemma WaitCalls(s: System, e: Event)
    requires e.Wake? || e.TimeOut? || e.Mark? || e.Deliver?
    ensures SameCalls(s, WaitStep(s, e))
  {
    hide AllAnswered;
  }

  lemma ExecutorCalls(s: System, e: Event)
    requires e.Take? || e.Check? || e.Execute? || e.Recheck? || e.Compete? || e.Publish? || e.Die? || e.TakeBack?
      || e.Search? || e.Cancel?
    ensures SameCalls(s, ExecutorStep(s, e))
  {
    hide FindSlot;
  }

  /** Only libsrpc_req_alloc starts a call, under a new number. */
  lemma CallsFresh(s: System, e: Event)
    ensures var r := Step(s, e);
            && |r.asked| >= |s.asked|
            && (forall b :: b in r.blocks && (b !in s.blocks || r.blocks[b].call != s.blocks[b].call) ==>
                 r.blocks[b].call == |s.asked|)
  {
    hide SendStep, WaitStep, ExecutorStep, InUse, IsBad;
    if e.Address? || e.Refuse? || e.Enqueue? || e.EndSend? { SendCalls(s, e); }
    else if e.Wake? || e.TimeOut? || e.Mark? || e.Deliver? { WaitCalls(s, e); }
    else if !e.Call? && !e.Leave? && !e.Destroy? { ExecutorCalls(s, e); }
  }

  /** A step that adds no request and runs nothing. */
  ghost predicate Passive(s: System, r: System) {
    && r.ran == s.ran
    && forall t :: t in r.tokens ==> t in s.tokens && r.tokens[t].b == s.tokens[t].b && r.tokens[t].p == s.tokens[t].p
  }

  lemma SendPassive(s: System, e: Event)
    requires e.Address? || e.Refuse? || e.EndSend?
    ensures Passive(s, SendStep(s, e))
  {
    hide Addressed;
  }

  lemma WaitPassive(s: System, e: Event)
    requires e.Wake? || e.TimeOut? || e.Mark? || e.Deliver?
    ensures Passive(s, WaitStep(s, e))
  {
    hide AllAnswered;
  }

  lemma ExecutorPassive(s: System, e: Event)
    requires e.Take? || e.Check? || e.Recheck? || e.Compete? || e.Publish? || e.Die? || e.TakeBack?
      || e.Search? || e.Cancel?
    ensures Passive(s, ExecutorStep(s, e))
  {
    hide FindSlot;
  }

  /** Only handing a request to a queue and executing the function are not passive. */
  lemma StepPassive(s: System, e: Event)
    ensures !e.Enqueue? && !e.Execute? ==> Passive(s, Step(s, e))
  {
    hide SendStep, WaitStep, ExecutorStep, InUse, IsBad;
    if e.Address? || e.Refuse? || e.EndSend? { SendPassive(s, e); }
    else if e.Wake? || e.TimeOut? || e.Mark? || e.Deliver? { WaitPassive(s, e); }
    else if !e.Call? && !e.Leave? && !e.Destroy? && !e.Enqueue? && !e.Execute? { ExecutorPassive(s, e); }
  }

  /** What an event adds to the requests on their way. */
  lemma TokensFrom(s: System, e: Event, t: nat)
    requires Inv(s) && t in Step(s, e).tokens
    ensures var r := Step(s, e);
            && (t in s.tokens ==> r.tokens[t].b == s.tokens[t].b && r.tokens[t].p == s.tokens[t].p)
            && (t !in s.tokens ==>
                  && r.tokens[t].b in s.blocks
                  && !Addressed(s.blocks[r.tokens[t].b], r.tokens[t].p))
    ensures t !in s.tokens ==> e.Enqueue?
  {
    hide BlockOk, StageOk, HistoryOk, Unique, Addressed, AllocStep, WaitStep, InUse;
    StepPassive(s, e);
    if e.Enqueue? {
      if t in s.tokens { assert TokenOk(s, t); }
      if e.cid in s.callers { assert CallerOk(s, e.cid); }
    }
  }

  lemma RunsFrom(s: System, e: Event, x: Execution)
    requires x in Step(s, e).ran && x !in s.ran
    ensures e.Execute? && e.t in s.tokens && s.tokens[e.t].b in s.blocks
    ensures x == Execution(s.blocks[s.tokens[e.t].b].call, s.tokens[e.t].p)
  {
    hide AllocStep, WaitStep, InUse, Addressed, FindSlot;
    StepPassive(s, e);
  }

  lemma NeverStays(s: System, e: Event, call: nat, p: nat)
    requires Inv(s) && Never(s, call, p)
    ensures Never(Step(s, e), call, p)
  {
    hide Inv, Step, Addressed;
    var r := Step(s, e);
    CallsFresh(s, e);
    forall b | b in r.blocks && r.blocks[b].call == call ensures Addressed(r.blocks[b], p) {
      AddressedLife(s, e, b, p);
    }
    forall t | t in r.tokens && r.tokens[t].b in r.blocks && r.blocks[r.tokens[t].b].call == call
      ensures r.tokens[t].p != p {
      TokensFrom(s, e, t);
      if e.Enqueue? { SendCalls(s, e); }
    }
    if Execution(call, p) in r.ran { RunsFrom(s, e, Execution(call, p)); }
  }

  lemma AddressedLife(s: System, e: Event, b: nat, p: nat)
    requires Inv(s) && b in s.blocks && b in Step(s, e).blocks && Step(s, e).blocks[b].call == s.blocks[b].call
    requires Addressed(s.blocks[b], p)
    ensures Addressed(Step(s, e).blocks[b], p)
  {
    hide Inv, Step;
    var i :| 0 <= i < s.blocks[b].sent && i < |s.blocks[b].slots| && s.blocks[b].slots[i].hp == Proc(p);
    SlotLife(s, e, b, i);
    assert Step(s, e).blocks[b].slots[i].hp == Proc(p);
  }

  lemma {:induction false} NeverInRun(s: System, events: seq<Event>, call: nat, p: nat)
    requires Inv(s) && Never(s, call, p)
    ensures Never(After(s, events), call, p)
    decreases |events|
  {
    hide Inv, Step, Never;
    if events != [] {
      StepInv(s, events[0]);
      NeverStays(s, events[0], call, p);
      NeverInRun(Step(s, events[0]), events[1..], call, p);
    }
  }

  /** ECANCELLED means that the process never ran the function for that call, then or later. */
  lemma CancelledNeverRuns(before: seq<Event>, later: seq<Event>, b: nat, i: nat)
    requires var s := After(START, before);
      b in s.blocks && i < s.blocks[b].sent && i < |s.blocks[b].slots| && s.blocks[b].slots[i].st == Failed(CANCELLED)
    ensures var s := After(START, before);
      s.blocks[b].slots[i].hp.Proc? && Execution(s.blocks[b].call, s.blocks[b].slots[i].hp.p) !in After(s, later).ran
  {
    hide Inv, Step;
    StartInv();
    RunInv(START, before);
    var s := After(START, before);
    CancelledIsNever(s, b, i);
    NeverInRun(s, later, s.blocks[b].call, s.blocks[b].slots[i].hp.p);
  }

  // ---------------------------------------------------------------- reuse

  /** A block is reused only when nothing that was ever queued for it is still on its way. */
  lemma ReuseIsQuiet(s: System, e: Event, t: nat)
    requires Inv(s) && e.Call? && t in s.tokens && s.tokens[t].b in s.blocks
    ensures Step(s, e).blocks[s.tokens[t].b] == s.blocks[s.tokens[t].b]
  {
    hide IsBad, BlockOk, HistoryOk, Unique, CallerOk;
    var r := AllocStep(s, e.cid, e.args, e.retnum, e.fits, e.junk);
    if e.cid in s.callers && s.callers[e.cid].pc.Rest? && s.callers[e.cid].cur.Cur? {
      RestIsWhole(s, e.cid);
      if !IsBad(s.blocks[s.callers[e.cid].cur.b]) { NoTokenLeft(s, s.callers[e.cid].cur.b, t); }
    }
    assert s.tokens[t].b != s.nextBlock by { CallsSmall(s); }
  }

  /** A call that reuses its block and addresses no process delivers whatever lies in the first slot. */
  lemma NothingSentIsStale(s: System, cid: nat, args: nat, retnum: nat, junk: seq<Slot>)
    requires cid in s.callers && s.callers[cid].pc.Rest? && s.callers[cid].cur.Cur?
    requires s.callers[cid].cur.b in s.blocks && !IsBad(s.blocks[s.callers[cid].cur.b])
    requires |junk| == retnum > 0 && Earlier(junk, |s.asked|) && junk[0].st.Ready?
    ensures var r := After(s, [Call(cid, args, retnum, true, junk), EndSend(cid), Deliver(cid)]);
            && r.got == s.got + [Got(|s.asked|, Value(junk[0].st.out), false)]
            && junk[0].st.out.call != |s.asked|
  {
    hide IsBad, Addressed;
    var e1, e2, e3 := Call(cid, args, retnum, true, junk), EndSend(cid), Deliver(cid);
    var x := AllocStep(s, cid, args, retnum, true, junk);
    var y := SendStep(x, e2);
    var z := WaitStep(y, e3);
    AfterThree(s, e1, e2, e3);
  }

  lemma AfterThree(s: System, a: Event, b: Event, c: Event)
    ensures After(s, [a, b, c]) == Step(Step(Step(s, a), b), c)
  {
    hide Step;
    assert [a, b, c][1..] == [b, c] && [b, c][1..] == [c] && [c][1..] == [];
    assert After(Step(Step(s, a), b), [c]) == Step(Step(Step(s, a), b), c);
    assert After(Step(s, a), [b, c]) == After(Step(Step(s, a), b), [c]);
  }
}