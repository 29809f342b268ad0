/** The delegate key ceremony as a state machine: any number of processes on one state
    directory, with a kill possible between any two steps, power losses that undo whatever
    was not fsynced, and uploads whose results may be late or lost. Files are never deleted. */
module Ceremony {
  import opened Wrappers
  import opened DurableFiles

  datatype Status = Started | PendingUpload | Stored

  datatype Receipt = Receipt(role: string, version: string, status: Status, address: Option<string>)

  /** What a ceremony cannot choose: its role and secret, the key derivation of the SDK, and
      what the secret held before the first run. */
  datatype Config = Config(
    role: string,
    version: string,
    words: string -> nat,
    addressOf: string -> string,
    addressShape: string -> bool,
    preexisting: seq<string>)

  /** The three calls of `write_receipt` and the steps inside one. */
  datatype Which = FirstIntent | PendingIntent | StoredMark
  datatype At = ToCreate | ToWrite | ToSync | ToReplace | ToSyncDir

  datatype Pc =
    | Begin(verify: bool)
    | Locked
    | NoReceipt
    | NoIntent
    | Writing(which: Which, at: At)
    | IntentDurable
    | UploadReady
    | Sent
    | Finished
    | VerifyLocked
    | VerifyRead(receipt: Receipt)

  datatype Proc = Proc(pc: Pc, forbidden: set<string>, mnemonic: string)

  datatype Upload = Upload(mnemonic: string, forbidden: set<string>)

  /** A receipt that verify mode read and confirmed (it returns it with another status), and the
      addresses it was told to refuse. */
  datatype Verification = Verification(receipt: Receipt, forbidden: set<string>)

  /** `generated`, `sent` and `verified` record everything that ever happened; `versions` is
      what the secret holds and `landed` which uploads the server has stored. */
  datatype State = State(
    receipt: Name<Receipt>,
    pending: Name<Receipt>,
    lock: Option<nat>,
    procs: map<nat, Proc>,
    generated: seq<string>,
    sent: seq<Upload>,
    landed: set<nat>,
    versions: seq<string>,
    verified: seq<Verification>)

  datatype Event =
    | Spawn(pid: nat, verify: bool, forbidden: set<string>)
    | Advance(pid: nat, randomness: string)
    | Kill(pid: nat)
    | Land(upload: nat)
    | PowerLoss(receiptLeft: Image<Receipt>, pendingLeft: Image<Receipt>)

  // ---------------------------------------------------------------- receipts

  function StartedReceipt(c: Config): Receipt {
    Receipt(c.role, c.version, Started, None)
  }

  function KeyReceipt(c: Config, mnemonic: string, status: Status): Receipt {
    Receipt(c.role, c.version, status, Some(c.addressOf(mnemonic)))
  }

  function Content(c: Config, which: Which, mnemonic: string): Receipt {
    match which
    case FirstIntent => StartedReceipt(c)
    case PendingIntent => KeyReceipt(c, mnemonic, PendingUpload)
    case StoredMark => KeyReceipt(c, mnemonic, Stored)
  }

  // ---------------------------------------------------------------- transitions

  function Init(c: Config): State {
    State(Fresh(), Fresh(), None, map[], [], [], {}, c.preexisting, [])
  }

  /** The process returns or raises; the lock goes with it. */
  function End(s: State, pid: nat): State {
    s.(procs := s.procs - {pid}, lock := if s.lock == Some(pid) then None else s.lock)
  }

  function Goto(s: State, pid: nat, p: Proc, pc: Pc): State {
    s.(procs := s.procs[pid := p.(pc := pc)])
  }

  /** One step inside `write_receipt`. */
  function WriteStep(c: Config, s: State, pid: nat, p: Proc): State
    requires p.pc.Writing?
  {
    var which := p.pc.which;
    var first := which == FirstIntent;
    match p.pc.at
    case ToCreate =>
      if first then
        if !s.receipt.now.Absent? then End(s, pid)
        else Goto(s, pid, p, Writing(which, ToWrite)).(receipt := Create(s.receipt))
      else
        if !s.pending.now.Absent? then End(s, pid)
        else Goto(s, pid, p, Writing(which, ToWrite)).(pending := Create(s.pending))
    case ToWrite =>
      var x := Content(c, which, p.mnemonic);
      var t := Goto(s, pid, p, Writing(which, ToSync));
      if first then t.(receipt := Write(s.receipt, x)) else t.(pending := Write(s.pending, x))
    case ToSync =>
      if first then Goto(s, pid, p, Writing(which, ToSyncDir)).(receipt := SyncFile(s.receipt))
      else Goto(s, pid, p, Writing(which, ToReplace)).(pending := SyncFile(s.pending))
    case ToReplace =>
      var (target, source) := Replace(s.pending, s.receipt);
      Goto(s, pid, p, Writing(which, ToSyncDir)).(receipt := target, pending := source)
    case ToSyncDir =>
      var next := match which
        case FirstIntent => IntentDurable
        case PendingIntent => UploadReady
        case StoredMark => Finished;
      Goto(s, pid, p, next).(receipt := SyncName(s.receipt), pending := SyncName(s.pending))
  }

  /** `receipt` passes the binding checks of verify mode. */
  predicate Bound(c: Config, r: Receipt) {
    && (r.status == PendingUpload || r.status == Stored)
    && r.role == c.role && r.version == c.version
    && r.address.Some? && r.address.value != ""
  }

  predicate KeyAccepted(c: Config, mnemonic: string, forbidden: set<string>) {
    && c.words(mnemonic) == 24
    && c.addressOf(mnemonic) !in forbidden
    && c.addressShape(c.addressOf(mnemonic))
  }

  /** The next step of a running process; `randomness` is only read by key generation. */
  function Step(c: Config, s: State, pid: nat, randomness: string): State
    requires pid in s.procs
  {
    var p := s.procs[pid];
    match p.pc
    case Begin(verify) =>
      if s.lock.Some? then End(s, pid)
      else Goto(s, pid, p, if verify then VerifyLocked else Locked).(lock := Some(pid))
    case Locked => if s.receipt.now.Absent? then Goto(s, pid, p, NoReceipt) else End(s, pid)
    case NoReceipt => if s.pending.now.Absent? then Goto(s, pid, p, NoIntent) else End(s, pid)
    case NoIntent => if s.versions == [] then Goto(s, pid, p, Writing(FirstIntent, ToCreate)) else End(s, pid)
    case Writing(_, _) => WriteStep(c, s, pid, p)
    case IntentDurable =>
      var t := s.(generated := s.generated + [randomness]);
      if KeyAccepted(c, randomness, p.forbidden)
      then Goto(t, pid, p.(mnemonic := randomness), Writing(PendingIntent, ToCreate))
      else End(t, pid)
    case UploadReady => Goto(s, pid, p, Sent).(sent := s.sent + [Upload(p.mnemonic, p.forbidden)])
    case Sent =>
      if s.versions != [] && s.versions[0] == p.mnemonic then Goto(s, pid, p, Writing(StoredMark, ToCreate))
      else End(s, pid)
    case Finished => End(s, pid)
    case VerifyLocked =>
      if s.receipt.now.Whole? && Bound(c, s.receipt.now.content) then Goto(s, pid, p, VerifyRead(s.receipt.now.content))
      else End(s, pid)
    case VerifyRead(r) =>
      if && s.versions != []
         && c.words(s.versions[0]) == 24
         && Some(c.addressOf(s.versions[0])) == r.address
         && c.addressOf(s.versions[0]) !in p.forbidden
      then End(s, pid).(verified := s.verified + [Verification(r, p.forbidden)])
      else End(s, pid)
  }

  /** None when the event cannot happen in this state. */
  function Next(c: Config, s: State, e: Event): Option<State> {
    match e
    case Spawn(pid, verify, forbidden) =>
      if pid in s.procs then None else Some(s.(procs := s.procs[pid := Proc(Begin(verify), forbidden, "")]))
    case Advance(pid, randomness) => if pid in s.procs then Some(Step(c, s, pid, randomness)) else None
    case Kill(pid) => if pid in s.procs then Some(End(s, pid)) else None
    case Land(i) =>
      if i < |s.sent| && i !in s.landed
      then Some(s.(landed := s.landed + {i}, versions := s.versions + [s.sent[i].mnemonic])) else None
    case PowerLoss(r, p) =>
      if r in s.receipt.after && p in s.pending.after
      then Some(s.(receipt := Recovered(r), pending := Recovered(p), lock := None, procs := map[])) else None
  }

  function Run(c: Config, s: State, events: seq<Event>): Option<State>
    decreases events
  {
    if events == [] then Some(s)
    else match Next(c, s, events[0])
      case None => None
      case Some(t) => Run(c, t, events[1..])
  }

  // ---------------------------------------------------------------- the invariant

  predicate NamesKey(c: Config, image: Image<Receipt>, mnemonic: string) {
    image == Whole(KeyReceipt(c, mnemonic, PendingUpload)) || image == Whole(KeyReceipt(c, mnemonic, Stored))
  }

  /** Now and after any power loss, receipt.json names the key `mnemonic`. */
  predicate KeyDurable(c: Config, s: State, mnemonic: string) {
    s.receipt.synced && NamesKey(c, s.receipt.now, mnemonic)
    && forall image | image in s.receipt.after :: NamesKey(c, image, mnemonic)
  }

  predicate Only(f: Name<Receipt>, r: Receipt) {
    f.now == Whole(r) && f.synced && f.after == {Whole(r)}
  }

  predicate LockOk(s: State) {
    && (s.lock.Some? ==> s.lock.value in s.procs)
    && forall pid | pid in s.procs :: s.procs[pid].pc.Begin? <==> s.lock != Some(pid)
  }

  predicate HistoryOk(c: Config, s: State) {
    && |s.generated| <= 1
    && |s.sent| <= 1
    && (s.generated != [] ==> !s.receipt.now.Absent? && Absent !in s.receipt.after)
    && (s.sent != [] ==>
          && s.generated == [s.sent[0].mnemonic]
          && KeyAccepted(c, s.sent[0].mnemonic, s.sent[0].forbidden)
          && KeyDurable(c, s, s.sent[0].mnemonic))
  }

  predicate CloudOk(c: Config, s: State) {
    && (!s.receipt.now.Absent? || s.receipt.after != {Absent} || s.sent != [] ==> c.preexisting == [])
    && c.preexisting <= s.versions
    && |s.versions| == |c.preexisting| + |s.landed| && (forall i | i in s.landed :: i < |s.sent|)
    && (forall v | v in s.versions :: v in c.preexisting || (s.sent != [] && v == s.sent[0].mnemonic))
    && (s.verified != [] ==> s.sent != [])
    && (forall v | v in s.verified ::
          s.sent != [] && NamesKey(c, Whole(v.receipt), s.sent[0].mnemonic)
          && c.addressOf(s.sent[0].mnemonic) !in v.forbidden)
  }

  /** What the lock holder may rely on at each point. */
  predicate HolderOk(c: Config, s: State, p: Proc) {
    match p.pc
    case Begin(_) => false
    case Locked => true
    case NoReceipt => s.receipt.now.Absent?
    case NoIntent => s.receipt.now.Absent? && s.pending.now.Absent?
    case Writing(FirstIntent, at) =>
      && c.preexisting == [] && s.generated == []
      && (match at
          case ToCreate => s.receipt.now.Absent?
          case ToWrite => true
          case ToSync => s.receipt.now == Whole(StartedReceipt(c))
          case ToReplace => false
          case ToSyncDir => s.receipt.now == Whole(StartedReceipt(c)) && s.receipt.synced)
    case IntentDurable => s.generated == [] && Only(s.receipt, StartedReceipt(c))
    case Writing(PendingIntent, at) =>
      && s.generated == [p.mnemonic] && s.sent == [] && KeyAccepted(c, p.mnemonic, p.forbidden)
      && (match at
          case ToCreate => true
          case ToWrite => true
          case ToSync => s.pending.now == Whole(KeyReceipt(c, p.mnemonic, PendingUpload))
          case ToReplace => s.pending.now == Whole(KeyReceipt(c, p.mnemonic, PendingUpload)) && s.pending.synced
          case ToSyncDir => s.receipt.now == Whole(KeyReceipt(c, p.mnemonic, PendingUpload)) && s.receipt.synced)
    case UploadReady =>
      && s.generated == [p.mnemonic] && s.sent == [] && KeyAccepted(c, p.mnemonic, p.forbidden)
      && Only(s.receipt, KeyReceipt(c, p.mnemonic, PendingUpload))
    case Sent => s.sent != [] && s.sent[0].mnemonic == p.mnemonic
    case Writing(StoredMark, at) =>
      && s.sent != [] && s.sent[0].mnemonic == p.mnemonic
      && (match at
          case ToCreate => true
          case ToWrite => true
          case ToSync => s.pending.now == Whole(KeyReceipt(c, p.mnemonic, Stored))
          case ToReplace => s.pending.now == Whole(KeyReceipt(c, p.mnemonic, Stored)) && s.pending.synced
          case ToSyncDir => true)
    case Finished => s.sent != []
    case VerifyLocked => true
    case VerifyRead(r) => s.receipt.now == Whole(r) && Bound(c, r)
  }

  predicate Inv(c: Config, s: State) {
    && LockOk(s) && HistoryOk(c, s) && CloudOk(c, s)
    && (s.lock.Some? ==> HolderOk(c, s, s.procs[s.lock.value]))
  }

  /** Version 1 of the secret is the uploaded key. */
  predicate Uploaded(s: State) {
    s.sent != [] && s.versions != [] && s.versions[0] == s.sent[0].mnemonic
  }

  predicate MarksStored(image: Image<Receipt>) {
    image.Whole? && image.content.status == Stored
  }

  predicate NamesStored(s: State) {
    exists image | image in s.receipt.after + {s.receipt.now} + s.pending.after + {s.pending.now} :: MarksStored(image)
  }

  predicate HolderStored(s: State, pc: Pc) {
    pc.Finished? || (pc.Writing? && pc.which.StoredMark?) ==> Uploaded(s)
  }

  /** Nothing says stored, or is about to, before the server holds the key. */
  predicate StoredOk(s: State) {
    && (NamesStored(s) ==> Uploaded(s))
    && (s.lock.Some? && s.lock.value in s.procs ==> HolderStored(s, s.procs[s.lock.value].pc))
  }

  // ---------------------------------------------------------------- preservation

  lemma EndKeepsInv(c: Config, s: State, pid: nat)
    requires Inv(c, s) && pid in s.procs
    ensures Inv(c, End(s, pid))
  {
  }

  /** The first intent, written in place under its final name. */
  lemma FirstWriteKeepsInv(c: Config, s: State, pid: nat)
    requires Inv(c, s) && pid in s.procs && s.procs[pid].pc.Writing? && s.procs[pid].pc.which.FirstIntent?
    ensures Inv(c, WriteStep(c, s, pid, s.procs[pid]))
  {
    assert s.lock == Some(pid) && HolderOk(c, s, s.procs[pid]);
  }

  /** The pending receipt, written aside and moved over the first. */
  lemma PendingWriteKeepsInv(c: Config, s: State, pid: nat)
    requires Inv(c, s) && pid in s.procs && s.procs[pid].pc.Writing? && s.procs[pid].pc.which.PendingIntent?
    ensures Inv(c, WriteStep(c, s, pid, s.procs[pid]))
  {
    assert s.lock == Some(pid) && HolderOk(c, s, s.procs[pid]);
  }

  /** The stored receipt, written aside and moved over the pending one. */
  lemma StoredWriteKeepsInv(c: Config, s: State, pid: nat)
    requires Inv(c, s) && pid in s.procs && s.procs[pid].pc.Writing? && s.procs[pid].pc.which.StoredMark?
    ensures Inv(c, WriteStep(c, s, pid, s.procs[pid]))
  {
    assert s.lock == Some(pid) && HolderOk(c, s, s.procs[pid]);
  }

  /** When verify mode reads version 1, it finds the key that the receipt names. */
  lemma VerifyFinds(c: Config, s: State, pid: nat)
    requires Inv(c, s) && pid in s.procs && s.procs[pid].pc.VerifyRead? && s.versions != []
    ensures s.sent != [] && s.versions[0] == s.sent[0].mnemonic && c.words(s.versions[0]) == 24
    ensures NamesKey(c, Whole(s.procs[pid].pc.receipt), s.versions[0])
  {
    assert s.lock == Some(pid) && HolderOk(c, s, s.procs[pid]);
    assert s.versions[0] in s.versions;
  }

  lemma BeginKeepsInv(c: Config, s: State, pid: nat)
    requires Inv(c, s) && pid in s.procs && s.procs[pid].pc.Begin?
    ensures Inv(c, Step(c, s, pid, ""))
  {
    EndKeepsInv(c, s, pid);
  }

  lemma ChecksKeepInv(c: Config, s: State, pid: nat)
    requires Inv(c, s) && pid in s.procs &&
             var pc := s.procs[pid].pc; pc.Locked? || pc.NoReceipt? || pc.NoIntent? || pc.VerifyLocked?
    ensures Inv(c, Step(c, s, pid, ""))
  {
    EndKeepsInv(c, s, pid);
  }

  lemma KeyKeepsInv(c: Config, s: State, pid: nat, randomness: string)
    requires Inv(c, s) && pid in s.procs &&
             var pc := s.procs[pid].pc; pc.IntentDurable? || pc.UploadReady? || pc.Sent? || pc.Finished?
    ensures Inv(c, Step(c, s, pid, randomness))
  {
    EndKeepsInv(c, s, pid);
  }

  lemma VerifyKeepsInv(c: Config, s: State, pid: nat)
    requires Inv(c, s) && pid in s.procs && s.procs[pid].pc.VerifyRead?
    ensures Inv(c, Step(c, s, pid, ""))
  {
    EndKeepsInv(c, s, pid);
    if s.versions != [] { VerifyFinds(c, s, pid); }
  }

  lemma StepKeepsInv(c: Config, s: State, pid: nat, randomness: string)
    requires Inv(c, s) && pid in s.procs
    ensures Inv(c, Step(c, s, pid, randomness))
  {
    hide Inv, WriteStep, End, KeyAccepted, Bound;
    match s.procs[pid].pc
    case Begin(_) => BeginKeepsInv(c, s, pid);
    case Writing(FirstIntent, _) => FirstWriteKeepsInv(c, s, pid);
    case Writing(PendingIntent, _) => PendingWriteKeepsInv(c, s, pid);
    case Writing(StoredMark, _) => StoredWriteKeepsInv(c, s, pid);
    case Locked => ChecksKeepInv(c, s, pid);
    case NoReceipt => ChecksKeepInv(c, s, pid);
    case NoIntent => ChecksKeepInv(c, s, pid);
    case VerifyLocked => ChecksKeepInv(c, s, pid);
    case VerifyRead(_) => VerifyKeepsInv(c, s, pid);
    case _ => KeyKeepsInv(c, s, pid, randomness);
  }

  lemma NextKeepsInv(c: Config, s: State, e: Event)
    requires Inv(c, s) && Next(c, s, e).Some?
    ensures Inv(c, Next(c, s, e).value)
  {
    match e
    case Advance(pid, randomness) => StepKeepsInv(c, s, pid, randomness);
    case Kill(pid) => EndKeepsInv(c, s, pid);
    case _ =>
  }

  lemma WriteKeepsStored(c: Config, s: State, pid: nat)
    requires Inv(c, s) && StoredOk(s) && pid in s.procs && s.procs[pid].pc.Writing?
    ensures StoredOk(WriteStep(c, s, pid, s.procs[pid]))
  {
    hide HistoryOk, CloudOk, KeyAccepted, Only;
    assert s.lock == Some(pid) && HolderOk(c, s, s.procs[pid]);
  }

  lemma OtherStepsKeepStored(c: Config, s: State, pid: nat, randomness: string)
    requires Inv(c, s) && StoredOk(s) && pid in s.procs && !s.procs[pid].pc.Writing?
    ensures var t := Step(c, s, pid, randomness);
            && t.receipt == s.receipt && t.pending == s.pending && (Uploaded(s) ==> Uploaded(t))
            && (t.lock.Some? && t.lock.value in t.procs ==> HolderStored(t, t.procs[t.lock.value].pc))
  {
    hide WriteStep, Bound, KeyAccepted, HistoryOk, CloudOk, Only, NamesStored;
    assert s.procs[pid].pc.Begin? || (s.lock == Some(pid) && HolderOk(c, s, s.procs[pid]));
  }

  lemma StepKeepsStored(c: Config, s: State, pid: nat, randomness: string)
    requires Inv(c, s) && StoredOk(s) && pid in s.procs
    ensures StoredOk(Step(c, s, pid, randomness))
  {
    if s.procs[pid].pc.Writing? {
      WriteKeepsStored(c, s, pid);
    } else {
      hide Step, Inv, Uploaded;
      OtherStepsKeepStored(c, s, pid, randomness);
    }
  }

  lemma NextKeepsStored(c: Config, s: State, e: Event)
    requires Inv(c, s) && StoredOk(s) && Next(c, s, e).Some?
    ensures StoredOk(Next(c, s, e).value)
  {
    hide Step, HolderOk;
    match e
    case Advance(pid, randomness) => StepKeepsStored(c, s, pid, randomness);
    case _ =>
  }

  lemma {:induction false} RunKeepsInv(c: Config, s: State, events: seq<Event>)
    requires Inv(c, s) && StoredOk(s) && Run(c, s, events).Some?
    ensures Inv(c, Run(c, s, events).value) && StoredOk(Run(c, s, events).value)
    decreases events
  {
    hide Inv, StoredOk, Next;
    if events != [] {
      NextKeepsInv(c, s, events[0]);
      NextKeepsStored(c, s, events[0]);
      RunKeepsInv(c, Next(c, s, events[0]).value, events[1..]);
    }
  }

  lemma InitInv(c: Config)
    ensures Inv(c, Init(c)) && StoredOk(Init(c))
  {
  }

  // ---------------------------------------------------------------- what every run keeps

  /** At most one key is ever generated and at most one upload is ever sent. */
  lemma AtMostOneUpload(c: Config, events: seq<Event>)
    requires Run(c, Init(c), events).Some?
    ensures var s := Run(c, Init(c), events).value; |s.sent| <= |s.generated| <= 1
  {
    InitInv(c);
    RunKeepsInv(c, Init(c), events);
  }

  /** Key generation happens only behind a durable intent: once a key exists, no power loss
      can make receipt.json disappear, so no later run can generate another. */
  lemma IntentBeforeKey(c: Config, events: seq<Event>)
    requires Run(c, Init(c), events).Some?
    ensures var s := Run(c, Init(c), events).value;
            s.generated != [] ==> !s.receipt.now.Absent? && Absent !in s.receipt.after
  {
    InitInv(c);
    RunKeepsInv(c, Init(c), events);
  }

  /** Once an upload is sent, receipt.json holds, now and after any power loss, the address of
      exactly the uploaded key, marked pending-upload or stored, and that address was acceptable. */
  lemma UploadIsReceipted(c: Config, events: seq<Event>)
    requires Run(c, Init(c), events).Some? && Run(c, Init(c), events).value.sent != []
    ensures var s := Run(c, Init(c), events).value;
            var u := s.sent[0];
            && c.addressOf(u.mnemonic) !in u.forbidden && c.addressShape(c.addressOf(u.mnemonic))
            && forall image | image in s.receipt.after + {s.receipt.now} ::
                 && image.Whole? && image.content.role == c.role && image.content.version == c.version
                 && image.content.status in {PendingUpload, Stored}
                 && image.content.address == Some(c.addressOf(u.mnemonic))
  {
    InitInv(c);
    RunKeepsInv(c, Init(c), events);
  }

  /** A receipt marked stored, found now or after any power loss, means that version 1 of the
      secret is the uploaded key. */
  lemma StoredMeansLanded(c: Config, events: seq<Event>)
    requires Run(c, Init(c), events).Some?
    ensures var s := Run(c, Init(c), events).value;
            forall image | image in s.receipt.after + {s.receipt.now} ::
              image.Whole? && image.content.status == Stored ==>
              |s.sent| == 1 && s.versions != [] && s.versions[0] == s.sent[0].mnemonic
  {
    InitInv(c);
    RunKeepsInv(c, Init(c), events);
    var s := Run(c, Init(c), events).value;
    forall image | image in s.receipt.after + {s.receipt.now} && image.Whole? && image.content.status == Stored
      ensures NamesStored(s)
    {
      assert MarksStored(image);
    }
  }

  /** A receipt that verify mode returned names the one key that was ever uploaded, whose address
      verify mode was not told to refuse; and it never reports a mismatch on account of the key:
      what version 1 holds is that key. */
  lemma VerifiedIsUploaded(c: Config, events: seq<Event>)
    requires Run(c, Init(c), events).Some?
    ensures var s := Run(c, Init(c), events).value;
            && (forall v | v in s.verified ::
                  && |s.sent| == 1 && v.receipt.address == Some(c.addressOf(s.sent[0].mnemonic))
                  && v.receipt.status in {PendingUpload, Stored} && c.addressOf(s.sent[0].mnemonic) !in v.forbidden)
            && (forall pid | pid in s.procs && s.procs[pid].pc.VerifyRead? && s.versions != [] ::
                  c.words(s.versions[0]) == 24 && s.procs[pid].pc.receipt.address == Some(c.addressOf(s.versions[0])))
  {
    InitInv(c);
    RunKeepsInv(c, Init(c), events);
    var s := Run(c, Init(c), events).value;
    forall pid | pid in s.procs && s.procs[pid].pc.VerifyRead? && s.versions != []
      ensures c.words(s.versions[0]) == 24 && s.procs[pid].pc.receipt.address == Some(c.addressOf(s.versions[0]))
    {
      VerifyFinds(c, s, pid);
    }
  }

  // ---------------------------------------------------------------- the protocol can finish

  lemma {:induction false} RunOneMore(c: Config, s: State, events: seq<Event>, e: Event)
    requires Run(c, s, events).Some?
    ensures Run(c, s, events + [e]) == Next(c, Run(c, s, events).value, e)
    decreases events
  {
    hide Next;
    if events == [] {
      assert events + [e] == [e];
    } else {
      assert (events + [e])[1..] == events[1..] + [e];
      RunOneMore(c, Next(c, s, events[0]).value, events[1..], e);
    }
  }

  lemma Go(c: Config, events: seq<Event>, s: State, e: Event) returns (more: seq<Event>, t: State)
    requires Run(c, Init(c), events) == Some(s) && Next(c, s, e).Some?
    ensures Next(c, s, e) == Some(t) && Run(c, Init(c), more) == Some(t) && more == events + [e]
  {
    more, t := events + [e], Next(c, s, e).value;
    RunOneMore(c, Init(c), events, e);
  }

  /** A process that starts and takes `n` steps while nothing else happens. */
  function Undisturbed(pid: nat, verify: bool, forbidden: set<string>, n: nat): seq<Event> {
    if n == 0 then [Spawn(pid, verify, forbidden)]
    else Undisturbed(pid, verify, forbidden, n - 1) + [Advance(pid, "")]
  }

  lemma TakesLock(c: Config, events: seq<Event>, s: State, pid: nat, verify: bool, forbidden: set<string>)
    returns (t: State)
    requires Run(c, Init(c), events) == Some(s) && s.lock.None? && pid !in s.procs
    ensures Run(c, Init(c), events + Undisturbed(pid, verify, forbidden, 1)) == Some(t)
    ensures t == s.(procs := s.procs[pid := Proc(if verify then VerifyLocked else Locked, forbidden, "")],
                    lock := Some(pid))
  {
    hide Run;
    var more;
    more, t := Go(c, events, s, Spawn(pid, verify, forbidden));
    more, t := Go(c, more, t, Advance(pid, ""));
    assert more == events + Undisturbed(pid, verify, forbidden, 1);
  }

  lemma OneStep(c: Config, events: seq<Event>, s: State, pid: nat, verify: bool, forbidden: set<string>, n: nat)
    returns (t: State)
    requires Run(c, Init(c), events + Undisturbed(pid, verify, forbidden, n)) == Some(s) && pid in s.procs
    ensures t == Step(c, s, pid, "")
    ensures Run(c, Init(c), events + Undisturbed(pid, verify, forbidden, n + 1)) == Some(t)
  {
    hide Run, Step;
    var more;
    var before := events + Undisturbed(pid, verify, forbidden, n);
    more, t := Go(c, before, s, Advance(pid, ""));
    assert more == events + Undisturbed(pid, verify, forbidden, n + 1);
  }

  lemma ReachedInv(c: Config, events: seq<Event>, s: State)
    requires Run(c, Init(c), events) == Some(s)
    ensures Inv(c, s)
  {
    InitInv(c);
    RunKeepsInv(c, Init(c), events);
  }

  /** What verify mode makes of any state in which the lock is free, when nothing interferes: the
      receipt, be it marked pending-upload or stored, is returned exactly when an upload was sent
      and has landed and its address is not refused. Otherwise, and apart from that, nothing changes. */
  lemma VerifyExactly(c: Config, events: seq<Event>, s: State, pid: nat, forbidden: set<string>)
    returns (n: nat, t: State)
    requires Run(c, Init(c), events) == Some(s) && s.lock.None? && pid !in s.procs
    ensures Run(c, Init(c), events + Undisturbed(pid, true, forbidden, n)) == Some(t)
    ensures if && s.sent != [] && 0 in s.landed
               && c.addressOf(s.sent[0].mnemonic) !in forbidden && c.addressOf(s.sent[0].mnemonic) != ""
            then s.receipt.now.Whole?
                 && t == s.(verified := s.verified + [Verification(s.receipt.now.content, forbidden)])
            else t == s
  {
    hide Run;
    ReachedInv(c, events, s);
    VersionsLanded(c, s);
    t := TakesLock(c, events, s, pid, true, forbidden);
    t := OneStep(c, events, t, pid, true, forbidden, 1);
    n := 2;
    if pid in t.procs {
      t := OneStep(c, events, t, pid, true, forbidden, n);
      n := n + 1;
    }
    assert t.procs == s.procs;
  }

  /** Which versions the secret holds. */
  lemma VersionsLanded(c: Config, s: State)
    requires Inv(c, s)
    ensures s.sent != [] && 0 in s.landed ==> s.versions != [] && s.versions[0] == s.sent[0].mnemonic
    ensures !s.receipt.now.Absent? && (s.sent == [] || 0 !in s.landed) ==> s.versions == []
  {
    if 0 !in s.landed || s.sent == [] {
      assert s.landed == {};
    } else {
      assert |s.landed - {0}| == |s.landed| - 1;
      assert s.versions[0] in s.versions;
    }
  }

  /** While the lock is held, a process of either mode ends without any effect. */
  lemma BusyRefuses(c: Config, events: seq<Event>, s: State, pid: nat, verify: bool, forbidden: set<string>)
    requires Run(c, Init(c), events) == Some(s) && s.lock.Some? && pid !in s.procs
    ensures Run(c, Init(c), events + Undisturbed(pid, verify, forbidden, 1)) == Some(s)
  {
    hide Run;
    assert s.lock != Some(pid) by { ReachedInv(c, events, s); }
    var more, t := Go(c, events, s, Spawn(pid, verify, forbidden));
    more, t := Go(c, more, t, Advance(pid, ""));
    assert more == events + Undisturbed(pid, verify, forbidden, 1);
    assert t.procs == s.procs;
  }

  /** Generation on anything but a fresh directory and an empty secret changes nothing at all: an
      earlier attempt, however it ended, is never repeated. */
  lemma GenerateRefuses(c: Config, events: seq<Event>, s: State, pid: nat, forbidden: set<string>)
    returns (n: nat)
    requires Run(c, Init(c), events) == Some(s) && s.lock.None? && pid !in s.procs
    requires !s.receipt.now.Absent? || !s.pending.now.Absent? || s.versions != []
    ensures Run(c, Init(c), events + Undisturbed(pid, false, forbidden, n)) == Some(s)
  {
    hide Run;
    var t := TakesLock(c, events, s, pid, false, forbidden);
    t := OneStep(c, events, t, pid, false, forbidden, 1);
    n := 2;
    if pid in t.procs {
      t := OneStep(c, events, t, pid, false, forbidden, n);
      n := n + 1;
    }
    if pid in t.procs {
      t := OneStep(c, events, t, pid, false, forbidden, n);
      n := n + 1;
    }
    assert t.procs == s.procs;
    assert t == s;
  }

  /** Process `pid` holds the lock, with the receipt as the last directory sync left it. */
  predicate Holding(s: State, procs: map<nat, Proc>, pid: nat, p: Proc, r: Receipt) {
    && s.procs == procs[pid := p] && s.lock == Some(pid)
    && s.receipt.now == Whole(r) && s.pending.now.Absent?
  }

  lemma WriteCompletes(c: Config, events: seq<Event>, s: State, procs: map<nat, Proc>, pid: nat, p: Proc, r: Receipt)
    returns (more: seq<Event>, t: State)
    requires Run(c, Init(c), events) == Some(s)
    requires p.pc.Writing? && p.pc.at.ToCreate? && !p.pc.which.FirstIntent? && Holding(s, procs, pid, p, r)
    ensures Run(c, Init(c), more) == Some(t) && events <= more
    ensures Holding(t, procs, pid, p.(pc := if p.pc.which.PendingIntent? then UploadReady else Finished),
                    Content(c, p.pc.which, p.mnemonic))
    ensures t.sent == s.sent && t.versions == s.versions && t.landed == s.landed && t.generated == s.generated
  {
    hide Run;
    more, t := Go(c, events, s, Advance(pid, ""));
    more, t := Go(c, more, t, Advance(pid, ""));
    more, t := Go(c, more, t, Advance(pid, ""));
    more, t := Go(c, more, t, Advance(pid, ""));
    more, t := Go(c, more, t, Advance(pid, ""));
  }

  predicate Startable(s: State) {
    s.lock.None? && s.receipt.now.Absent? && s.pending.now.Absent? && s.versions == []
  }

  lemma ChecksPass(c: Config, events: seq<Event>, s: State, pid: nat, forbidden: set<string>)
    returns (more: seq<Event>, t: State)
    requires Run(c, Init(c), events) == Some(s) && Startable(s) && pid !in s.procs
    ensures Run(c, Init(c), more) == Some(t) && events <= more
    ensures t == s.(procs := s.procs[pid := Proc(Writing(FirstIntent, ToCreate), forbidden, "")], lock := Some(pid))
  {
    hide Run;
    more, t := Go(c, events, s, Spawn(pid, false, forbidden));
    more, t := Go(c, more, t, Advance(pid, ""));
    more, t := Go(c, more, t, Advance(pid, ""));
    more, t := Go(c, more, t, Advance(pid, ""));
    more, t := Go(c, more, t, Advance(pid, ""));
  }

  lemma IntentCompletes(c: Config, events: seq<Event>, s: State, pid: nat, forbidden: set<string>)
    returns (more: seq<Event>, t: State)
    requires Run(c, Init(c), events) == Some(s) && Startable(s) && pid !in s.procs
    ensures Run(c, Init(c), more) == Some(t) && events <= more
    ensures Holding(t, s.procs, pid, Proc(IntentDurable, forbidden, ""), StartedReceipt(c))
    ensures t.sent == s.sent && t.versions == s.versions && t.landed == s.landed && t.generated == s.generated
  {
    hide Run;
    more, t := ChecksPass(c, events, s, pid, forbidden);
    more, t := Go(c, more, t, Advance(pid, ""));
    more, t := Go(c, more, t, Advance(pid, ""));
    more, t := Go(c, more, t, Advance(pid, ""));
    more, t := Go(c, more, t, Advance(pid, ""));
  }

  lemma NothingSentYet(c: Config, s: State)
    requires Inv(c, s) && s.receipt.now.Absent?
    ensures s.sent == [] && forall i :: i !in s.landed
  {
  }

  lemma UploadCompletes(c: Config, events: seq<Event>, s: State, procs: map<nat, Proc>, pid: nat,
                        forbidden: set<string>, mnemonic: string) returns (more: seq<Event>, t: State)
    requires Run(c, Init(c), events) == Some(s) && s.sent == [] && s.versions == [] && 0 !in s.landed
    requires Holding(s, procs, pid, Proc(IntentDurable, forbidden, ""), StartedReceipt(c))
    requires c.words(mnemonic) == 24 && c.addressOf(mnemonic) !in forbidden && c.addressShape(c.addressOf(mnemonic))
    ensures Run(c, Init(c), more) == Some(t) && events <= more
    ensures t.sent == [Upload(mnemonic, forbidden)] && t.versions == [mnemonic]
    ensures Holding(t, procs, pid, Proc(Sent, forbidden, mnemonic), KeyReceipt(c, mnemonic, PendingUpload))
  {
    hide Run;
    more, t := Go(c, events, s, Advance(pid, mnemonic));
    more, t := WriteCompletes(c, more, t, procs, pid, t.procs[pid], StartedReceipt(c));
    more, t := Go(c, more, t, Advance(pid, ""));
    more, t := Go(c, more, t, Land(0));
  }

  /** Wherever there is neither a receipt, nor a pending one, nor a version of the secret, every
      acceptable key can be carried through to a stored receipt. */
  lemma CeremonyCompletes(c: Config, events: seq<Event>, s: State, pid: nat, forbidden: set<string>, mnemonic: string)
    returns (more: seq<Event>, t: State)
    requires Run(c, Init(c), events) == Some(s) && Startable(s) && pid !in s.procs
    requires c.words(mnemonic) == 24 && c.addressOf(mnemonic) !in forbidden && c.addressShape(c.addressOf(mnemonic))
    ensures Run(c, Init(c), more) == Some(t) && events <= more
    ensures t.sent == [Upload(mnemonic, forbidden)] && t.versions == [mnemonic]
    ensures t.receipt.now == Whole(KeyReceipt(c, mnemonic, Stored)) && t.lock.None? && t.procs == s.procs
  {
    hide Run;
    assert s.sent == [] && 0 !in s.landed by {
      ReachedInv(c, events, s);
      NothingSentYet(c, s);
    }
    more, t := IntentCompletes(c, events, s, pid, forbidden);
    more, t := UploadCompletes(c, more, t, s.procs, pid, forbidden, mnemonic);
    more, t := Go(c, more, t, Advance(pid, ""));
    more, t := WriteCompletes(c, more, t, s.procs, pid, t.procs[pid], KeyReceipt(c, mnemonic, PendingUpload));
    more, t := Go(c, more, t, Advance(pid, ""));
    assert t.procs == s.procs;
  }
}
