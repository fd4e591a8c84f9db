/** Two-shard transfers under one coordinator: every interleaving of requests, worker steps, administrator
    cancellations, crashes, lost replies and late, repeated or reordered deliveries. */
module Transfers {
  import opened Wrappers
  import opened Sorting
  import opened WalletShard

  datatype Config = Config(names: seq<string>, opening: map<string, int>, count: nat, route: Route)

  ghost predicate ConfigOk(c: Config) {
    && Distinct(c.names) && (forall a :: a in c.opening <==> a in c.names)
    && (forall a :: a in c.opening ==> c.opening[a] >= 0) && (forall a :: a in c.names ==> c.route(a) < c.count)
  }

  // ---------------------------------------------------------------- the coordinator's journal

  /** Terminal results: SUCCEEDED, CANCELED and REJECTED. */
  datatype Outcome = Succeeded | Withdrawn | Declined

  datatype Fact = Accepted(body: Intent) | Decided(id: string, commit: bool) | Completed(id: string, outcome: Outcome)

  /** A transfer as the journal tells it; no outcome means PENDING. */
  datatype Transfer = Transfer(body: Intent, decision: Option<bool>, outcome: Option<Outcome>)

  type Book = map<string, Transfer>

  /** One journal row; None is the ValueError of `project`. */
  function Apply(book: Book, f: Fact): Option<Book> {
    match f
    case Accepted(b) => if b.id in book then None else Some(book[b.id := Transfer(b, None, None)])
    case Decided(id, commit) =>
      if id !in book || book[id].outcome.Some? || book[id].decision.Some? then None
      else Some(book[id := book[id].(decision := Some(commit))])
    case Completed(id, outcome) =>
      if id !in book || book[id].outcome.Some?
         || (book[id].decision == Some(true) && !outcome.Succeeded?)
         || (book[id].decision == Some(false) && !outcome.Withdrawn?)
         || (book[id].decision == None && outcome.Withdrawn?) then None
      else Some(book[id := book[id].(outcome := Some(outcome))])
  }

  /** `project`. */
  function Project(log: seq<Fact>): Option<Book> {
    if log == [] then Some(map[])
    else
      match Project(log[..|log| - 1])
      case None => None
      case Some(book) => Apply(book, log[|log| - 1])
  }

  lemma ProjectAppend(log: seq<Fact>, f: Fact)
    requires Project(log).Some?
    ensures Project(log + [f]) == Apply(Project(log).value, f)
  {
    assert (log + [f])[..|log|] == log;
  }

  /** Later facts never take back earlier ones. */
  ghost predicate Grows(a: Book, b: Book) {
    forall id :: id in a ==>
      && id in b && b[id].body == a[id].body
      && (a[id].decision.Some? ==> b[id].decision == a[id].decision)
           && (a[id].outcome.Some? ==> b[id].outcome == a[id].outcome)
  }

  lemma ApplyGrows(book: Book, f: Fact)
    requires Apply(book, f).Some?
    ensures Grows(book, Apply(book, f).value)
  {
  }

  /** The accepted intents, in order. */
  function Bodies(log: seq<Fact>): seq<Intent> {
    if log == [] then []
    else
      var f := log[|log| - 1];
      Bodies(log[..|log| - 1]) + (if f.Accepted? then [f.body] else [])
  }

  // ---------------------------------------------------------------- the whole system

  /** A participant command in the network. It may arrive late, again, or out of order. */
  datatype Message = Message(index: nat, event: Event)

  /** What the worker has read so far in its current step; it is lost in a crash. */
  datatype Worker = Idle | Started(id: string) | HalfRead(id: string, left: Option<Part>)
                  | Read(id: string, left: Option<Part>, right: Option<Part>)

  /** `log` is the coordinator's retained journal, of which the first `committed` rows have reached a quorum. */
  datatype System = System(shards: seq<Shard>, log: seq<Fact>, committed: nat, sent: set<Message>, worker: Worker)

  function SourceShard(c: Config, b: Intent): nat { c.route(b.source) }

  function TargetShard(c: Config, b: Intent): nat { c.route(b.destination) }

  predicate Cross(c: Config, b: Intent) { SourceShard(c, b) != TargetShard(c, b) }

  function PartAt(shards: seq<Shard>, i: nat, id: string): Option<Part> {
    if i < |shards| && id in shards[i].parts then Some(shards[i].parts[id]) else None
  }

  /** `check_part`: a receipt for another intent or role is never used. */
  predicate Receipt(p: Option<Part>, b: Intent, role: Role) {
    p.Some? ==>
      && p.value.intent == b && p.value.role == role
      && (role.Local? ==> p.value.status.Confirmed? || p.value.status.Rejected?)
  }

  predicate Is(p: Option<Part>, status: Status) { p.Some? && p.value.status == status }

  predicate Refused(p: Option<Part>) { Is(p, Rejected) || Is(p, Canceled) }

  function Noted(s: System, f: Fact): System { s.(log := s.log + [f], worker := Idle) }

  function Sending(s: System, i: nat, kind: Kind, role: Role, b: Intent): System {
    s.(sent := s.sent + {Message(i, Event(kind, role, b))}, worker := Idle)
  }

  /** The decision part of `advance`, once both participants have been read. */
  function Advance(c: Config, s: System, t: Transfer, left: Option<Part>, right: Option<Part>): System {
    var b := t.body;
    match t.decision
    case None =>
      if Refused(left) || Refused(right) then Noted(s, Decided(b.id, false))
      else if left.None? then Sending(s, SourceShard(c, b), Prepare, Source, b)
      else if right.None? then Sending(s, TargetShard(c, b), Prepare, Destination, b)
      else if Is(left, Prepared) && Is(right, Prepared) then Noted(s, Decided(b.id, true))
      else s.(worker := Idle)
    case Some(true) =>
      if !Is(left, Confirmed) then Sending(s, SourceShard(c, b), Confirm, Source, b)
      else if !Is(right, Confirmed) then Sending(s, TargetShard(c, b), Confirm, Destination, b)
      else Noted(s, Completed(b.id, Succeeded))
    case Some(false) =>
      if !Is(left, Canceled) then Sending(s, SourceShard(c, b), Cancel, Source, b)
      else if !Is(right, Canceled) then Sending(s, TargetShard(c, b), Cancel, Destination, b)
      else Noted(s, Completed(b.id, Withdrawn))
  }

  /** The same-shard branch of `advance`. */
  function AdvanceLocal(c: Config, s: System, t: Transfer, part: Option<Part>): System {
    if part.None? then Sending(s, SourceShard(c, t.body), Move, Local, t.body)
    else Noted(s, Completed(t.body.id, if Is(part, Confirmed) then Succeeded else Declined))
  }

  datatype Step =
    | Create(body: Intent)          // a client's transfer is accepted
    | Sync                          // a quorum acknowledges the whole journal
    | Begin(id: string)             // the worker picks a pending transfer
    | ReadLeft | ReadRight | Proceed
    | GiveUp                        // a crash, a timeout or a lost reply ends the worker's step
    | Refuse                        // a definitive participant error ends it, selecting cancellation
    | Withdraw(id: string)          // an administrator cancels
    | Deliver(message: Message)     // a participant command arrives

  predicate Synced(s: System) { s.worker.Idle? && s.committed == |s.log| }

  predicate Cancellable(c: Config, t: Transfer) {
    t.outcome.None? && t.decision.None? && Cross(c, t.body)
  }

  /** One step; None when it cannot happen. */
  function Next(c: Config, s: System, e: Step): Option<System> {
    var projected := Project(s.log);
    if projected.None? then None
    else
      var book := projected.value;
      match e
      case Create(b) =>
        if Synced(s) && b.Valid() && b.source in c.names && b.destination in c.names && b.id !in book && |book| < 1000
        then Some(Noted(s, Accepted(b))) else None
      case Sync => if s.worker.Idle? then Some(s.(committed := |s.log|)) else None
      case Begin(id) => if Synced(s) && id in book && book[id].outcome.None? then Some(s.(worker := Started(id)))
        else None
      case ReadLeft =>
        if s.worker.Started? && s.worker.id in book then
          var b := book[s.worker.id].body;
          var p := PartAt(s.shards, SourceShard(c, b), b.id);
          if Receipt(p, b, if Cross(c, b) then Source else Local) then Some(s.(worker := HalfRead(b.id, p))) else None
        else None
      case ReadRight =>
        if s.worker.HalfRead? && s.worker.id in book && Cross(c, book[s.worker.id].body) then
          var b := book[s.worker.id].body;
          var p := PartAt(s.shards, TargetShard(c, b), b.id);
          if Receipt(p, b, Destination) then Some(s.(worker := Read(b.id, s.worker.left, p))) else None
        else None
      case Proceed =>
        if s.worker.HalfRead? && s.worker.id in book && !Cross(c, book[s.worker.id].body)
        then Some(AdvanceLocal(c, s, book[s.worker.id], s.worker.left))
        else if s.worker.Read? && s.worker.id in book
          then Some(Advance(c, s, book[s.worker.id], s.worker.left, s.worker.right))
        else None
      case GiveUp => Some(s.(worker := Idle))
      case Refuse =>
        if !s.worker.Idle? && s.worker.id in book && Cancellable(c, book[s.worker.id])
          then Some(Noted(s, Decided(s.worker.id, false))) else None
      case Withdraw(id) => if Synced(s) && id in book && Cancellable(c, book[id])
        then Some(Noted(s, Decided(id, false))) else None
      case Deliver(m) =>
        if m in s.sent && m.index < |s.shards| then
          match Act(s.shards[m.index], c.route, m.index, m.event)
          case Err(_) => None
          case Ok(d) => Some(s.(shards := s.shards[m.index := d.state]))
        else None
  }

  function Opening(c: Config, i: nat): map<string, int> {
    map a | a in c.opening && c.route(a) == i :: c.opening[a]
  }

  function Init(c: Config): System {
    System(seq(c.count, i requires 0 <= i < c.count => Genesis(Opening(c, i))), [], 0, {}, Idle)
  }

  function Run(c: Config, steps: seq<Step>): Option<System> {
    if steps == [] then Some(Init(c))
    else
      match Run(c, steps[..|steps| - 1])
      case None => None
      case Some(s) => Next(c, s, steps[|steps| - 1])
  }

  /** A run that goes on from `s`. */
  function RunFrom(c: Config, s: System, steps: seq<Step>): Option<System>
    decreases |steps|
  {
    if steps == [] then Some(s)
    else
      match Next(c, s, steps[0])
      case None => None
      case Some(t) => RunFrom(c, t, steps[1..])
  }

  lemma {:induction false} RunFromTwice(c: Config, s: System, a: seq<Step>, b: seq<Step>)
    requires RunFrom(c, s, a).Some?
    ensures RunFrom(c, s, a + b) == RunFrom(c, RunFrom(c, s, a).value, b)
    decreases |a|
  {
    hide Next;
    if a == [] {
      assert a + b == b;
    } else {
      assert (a + b)[1..] == a[1..] + b;
      RunFromTwice(c, Next(c, s, a[0]).value, a[1..], b);
    }
  }

  // ---------------------------------------------------------------- what holds of one transfer

  /** Facts about the two participants of a cross-shard transfer; `k` is the replicated decision, `t` the journal's. */
  predicate CrossOk(left: Option<Part>, right: Option<Part>, k: Option<bool>, t: Transfer) {
    && (k.Some? ==> t.decision == k)
    && (Is(left, Confirmed) || Is(right, Confirmed) ==> k == Some(true))
    && (Is(left, Canceled) || Is(right, Canceled) ==> k == Some(false))
    && (t.decision == Some(true) ==> left.Some? && right.Some? && !Refused(left) && !Refused(right))
    && (Is(right, Confirmed) ==> Is(left, Confirmed))
    && (t.outcome == Some(Succeeded) ==> t.decision == Some(true) && Is(left, Confirmed) && Is(right, Confirmed))
    && (t.outcome == Some(Withdrawn) ==> t.decision == Some(false) && Is(left, Canceled) && Is(right, Canceled))
    && t.outcome != Some(Declined)
  }

  predicate LocalOk(part: Option<Part>, t: Transfer) {
    && t.decision.None? && t.outcome != Some(Withdrawn) && (part.Some? ==> Is(part, Confirmed) || Is(part, Rejected))
    && (t.outcome == Some(Succeeded) ==> Is(part, Confirmed)) && (t.outcome == Some(Declined) ==> Is(part, Rejected))
  }

  predicate Placed(c: Config, i: nat, role: Role, b: Intent) {
    match role
    case Local => SourceShard(c, b) == i && TargetShard(c, b) == i
    case Source => SourceShard(c, b) == i && Cross(c, b)
    case Destination => TargetShard(c, b) == i && Cross(c, b)
  }

  /** Every record belongs to a replicated command, at its own shard, in its own role. */
  ghost predicate Owned(c: Config, shards: seq<Shard>, known: Book, id: string) {
    forall i :: 0 <= i < |shards| && id in shards[i].parts ==>
      id in known && shards[i].parts[id].intent == known[id].body
        && Placed(c, i, shards[i].parts[id].role, known[id].body)
  }

  function DecisionIn(known: Book, id: string): Option<bool> {
    if id in known then known[id].decision else None
  }

  ghost predicate Coherent(c: Config, shards: seq<Shard>, known: Book, book: Book, id: string) {
    && Owned(c, shards, known, id)
    && (id in book ==>
          var t := book[id];
          && t.body.id == id && t.body.Valid() && t.body.source in c.names && t.body.destination in c.names
          && if Cross(c, t.body)
             then CrossOk(PartAt(shards, SourceShard(c, t.body), id), PartAt(shards, TargetShard(c, t.body), id),
                 DecisionIn(known, id), t)
             else LocalOk(PartAt(shards, SourceShard(c, t.body), id), t))
  }

  /** A command in the network is one the replicated journal calls for. */
  ghost predicate Warranted(c: Config, shards: seq<Shard>, known: Book, m: Message) {
    var b := m.event.intent;
    && m.index < |shards| && b.id in known && known[b.id].body == b && Placed(c, m.index, m.event.role, b)
    && (m.event.kind.Move? <==> m.event.role.Local?)
    && (m.event.kind.Confirm? ==> known[b.id].decision == Some(true)
                                  && (m.event.role.Destination? ==>
                                       Is(PartAt(shards, SourceShard(c, b), b.id), Confirmed)))
    && (m.event.kind.Cancel? ==> known[b.id].decision == Some(false))
  }

  /** What was read can only have moved forward since. */
  predicate Since(seen: Option<Part>, now: Option<Part>) {
    seen.Some? ==>
      && now.Some? && now.value.intent == seen.value.intent && now.value.role == seen.value.role
      && Later(seen.value.status, now.value.status)
  }

  ghost predicate WorkerOk(c: Config, s: System, book: Book) {
    !s.worker.Idle? ==>
      && s.committed == |s.log| && s.worker.id in book && book[s.worker.id].outcome.None?
      && var b := book[s.worker.id].body;
      && (s.worker.HalfRead? || s.worker.Read? ==>
            Since(s.worker.left, PartAt(s.shards, SourceShard(c, b), b.id))
              && Receipt(s.worker.left, b, if Cross(c, b) then Source else Local))
      && (s.worker.Read? ==> Cross(c, b) && Since(s.worker.right, PartAt(s.shards, TargetShard(c, b), b.id)))
  }

  function Known(s: System): Book
    requires s.committed <= |s.log| && Project(s.log[..s.committed]).Some?
  {
    Project(s.log[..s.committed]).value
  }

  /** The journal always replays, and the replicated part is an earlier state of the whole. */
  ghost predicate JournalOk(s: System) {
    && Project(s.log).Some? && s.committed <= |s.log| && Project(s.log[..s.committed]).Some?
    && Grows(Known(s), Project(s.log).value)
  }

  ghost predicate ShardsOk(c: Config, shards: seq<Shard>) {
    && |shards| == c.count
    && forall i :: 0 <= i < |shards| ==>
         Sound(shards[i]) && forall a :: a in shards[i].accounts <==> a in c.names && c.route(a) == i
  }

  ghost predicate Inv(c: Config, s: System) {
    && JournalOk(s) && ShardsOk(c, s.shards)
    && (forall id :: Coherent(c, s.shards, Known(s), Project(s.log).value, id))
    && (forall m :: m in s.sent ==> Warranted(c, s.shards, Known(s), m))
    && WorkerOk(c, s, Project(s.log).value)
  }
}
