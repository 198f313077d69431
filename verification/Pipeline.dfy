/** The pipelined RESP connection: the loop of `resp3_handler.rs` and `apply_hello` of `connection.rs`. */
module Pipeline {
  import opened Bytes
  import opened Resp
  import opened Streaming

  const PIPELINE_WINDOW: nat := 128

  /** The arguments of HELLO: protocol version, credentials, client name. */
  datatype HelloArgs = HelloArgs(protover: Option<nat>, auth: Option<(Data, Data)>, setname: Option<Data>)

  /** The commands by name; only the arguments of HELLO matter to the loop. */
  datatype Verb =
    | SkegVset | SkegVmset | SkegVsearch | SkegVdel | Ping | Echo
    | Hello(args: HelloArgs) | SkegAuth | Select | Get | Set | Del | Other

  /** Only these may run concurrently on one connection. */
  predicate IsPipelineable(v: Verb) {
    v.SkegVset? || v.SkegVmset? || v.SkegVsearch? || v.SkegVdel? || v.Ping? || v.Echo?
  }

  /** What one turn of the loop finds: a frame that is a command or is not, an empty buffer, or bytes
      that are no frame. */
  datatype Event = Command(verb: Verb) | NotACommand | Starved | Broken

  /** A turn after which the loop goes on. */
  type Turn = e: Event | !e.Broken? witness Starved

  predicate IsPipelined(e: Event) {
    e.Command? && IsPipelineable(e.verb)
  }

  /** A decoded frame: it gets a reply. */
  predicate IsRequest(e: Event) {
    e.Command? || e.NotACommand?
  }

  /** A reply on the wire: to which request, with what, in which protocol version. */
  datatype Sent = Sent(request: nat, reply: Frame, v3: bool)

  // ---- HELLO ----

  datatype Session = Session(v3: bool, tenant: nat, id: int, name: Option<Data>)

  /** The multi-tenant backend, if there is one: how it verifies a login, and whether it refuses
      anonymous connections. */
  datatype Backend = Backend(verify: (Data, Data) -> Option<nat>, strict: bool)

  datatype Login = Granted(tenant: nat) | Denied(reply: Frame)

  function Ascii(text: string): Data {
    seq(|text|, i requires 0 <= i < |text| => text[i] as int % 256)
  }

  function LogIn(b: Option<Backend>, args: HelloArgs, tenant: nat): Login {
    if b.None? then Granted(tenant)
    else if args.auth.Some? then
      match b.value.verify(args.auth.value.0, args.auth.value.1)
      case Some(id) => Granted(id)
      case None => Denied(Error(Ascii("WRONGPASS invalid username-password pair")))
    else if b.value.strict then Denied(Error(Ascii("NOAUTH authentication required (server is in strict mode)")))
    else Granted(tenant)
  }

  /** `apply_hello`, on the state. */
  function ApplyHello(s: Session, args: HelloArgs): Session {
    var versioned := if args.protover.Some? then s.(v3 := args.protover.value == 3) else s;
    if args.setname.Some? then versioned.(name := args.setname) else versioned
  }

  /** `apply_hello`, the reply. */
  function Greeting(s: Session, version: Data): Frame {
    Map([
      Pair(Bulk(Ascii("server")), Bulk(Ascii("skeg"))),
      Pair(Bulk(Ascii("version")), Bulk(version)),
      Pair(Bulk(Ascii("proto")), Integer(if s.v3 then 3 else 2)),
      Pair(Bulk(Ascii("id")), Integer(s.id)),
      Pair(Bulk(Ascii("mode")), Bulk(Ascii("standalone"))),
      Pair(Bulk(Ascii("role")), Bulk(Ascii("master"))),
      Pair(Bulk(Ascii("modules")), Array([]))])
  }

  /** The server: its backend and the version it reports. */
  datatype Server = Server(backend: Option<Backend>, version: Data)

  /** The HELLO arm of `dispatch_command`. */
  function DoHello(w: Server, s: Session, args: HelloArgs): (Frame, Session) {
    match LogIn(w.backend, args, s.tenant)
    case Denied(reply) => (reply, s)
    case Granted(tenant) =>
      var after := ApplyHello(s.(tenant := tenant), args);
      (Greeting(after, w.version), after)
  }

  /** A HELLO that is let in and names the version the connection is not in. */
  predicate Switches(w: Server, s: Session, e: Event) {
    && e.Command? && e.verb.Hello?
    && LogIn(w.backend, e.verb.args, s.tenant).Granted?
    && e.verb.args.protover.Some? && (e.verb.args.protover.value == 3) != s.v3
  }

  // ---- What each request is answered ----

  /** The session after a request: no arm of `dispatch_command` but HELLO's touches it. */
  function After(w: Server, s: Session, e: Event): Session {
    if e.Command? && e.verb.Hello? then DoHello(w, s, e.verb.args).1 else s
  }

  /** The session after the first `n` requests. */
  function SessionAfter(w: Server, reqs: seq<Event>, s: Session, n: nat): Session
    requires n <= |reqs|
  {
    if n == 0 then s else After(w, SessionAfter(w, reqs, s, n - 1), reqs[n - 1])
  }

  /** The reply to request `i`, whose execution returned `outcome`. HELLO computes its own. */
  function Answer(w: Server, now: Session, e: Event, i: nat, outcome: Frame): Sent {
    Sent(i, if e.Command? && e.verb.Hello? then DoHello(w, now, e.verb.args).0 else outcome, After(w, now, e).v3)
  }

  /** One reply per request, in order, each in the version left by the requests up to it. */
  function Answers(w: Server, reqs: seq<Event>, s: Session, outcome: nat -> Frame): (sent: seq<Sent>)
    ensures |sent| == |reqs| && forall i :: 0 <= i < |reqs| ==> sent[i] == Served(w, reqs, s, outcome, i)
  {
    seq(|reqs|, i requires 0 <= i < |reqs| => Served(w, reqs, s, outcome, i))
  }

  function Served(w: Server, reqs: seq<Event>, s: Session, outcome: nat -> Frame, i: nat): Sent
    requires i < |reqs|
  {
    Answer(w, SessionAfter(w, reqs, s, i), reqs[i], i, outcome(i))
  }

  /** A reply is in the version in force when its request was taken if and only if the request is not
      a HELLO that is let in and names the other version; a HELLO that is let in announces the version
      its reply is in, and only such a HELLO changes the version or the tenant. */
  lemma VersionAtSubmission(w: Server, reqs: seq<Event>, s: Session, outcome: nat -> Frame, i: nat)
    requires i < |reqs|
    ensures var now := SessionAfter(w, reqs, s, i);
            Answers(w, reqs, s, outcome)[i].v3 == now.v3 <==> !Switches(w, now, reqs[i])
    ensures var (now, sent) := (SessionAfter(w, reqs, s, i), Answers(w, reqs, s, outcome)[i]);
            reqs[i].Command? && reqs[i].verb.Hello? && LogIn(w.backend, reqs[i].verb.args, now.tenant).Granted? ==>
            sent.reply.Map? && Pair(Bulk(Ascii("proto")), Integer(if sent.v3 then 3 else 2)) in sent.reply.pairs
    ensures var now := SessionAfter(w, reqs, s, i);
            !(reqs[i].Command? && reqs[i].verb.Hello? && LogIn(w.backend, reqs[i].verb.args, now.tenant).Granted?) ==>
            SessionAfter(w, reqs, s, i + 1) == now
  {
    var (now, sent) := (SessionAfter(w, reqs, s, i), Answers(w, reqs, s, outcome)[i]);
    assert sent == Answer(w, now, reqs[i], i, outcome(i));
    if reqs[i].Command? && reqs[i].verb.Hello? && LogIn(w.backend, reqs[i].verb.args, now.tenant).Granted? {
      var after := DoHello(w, now, reqs[i].verb.args).1;
      assert sent.reply == Greeting(after, w.version);
      assert Greeting(after, w.version).pairs[2] == Pair(Bulk(Ascii("proto")), Integer(if sent.v3 then 3 else 2));
    }
  }

  /** HELLO 3 on a fresh connection without a backend is answered in RESP3, though it was sent under
      RESP2. */
  lemma HelloAnsweredInNewVersion(version: Data, id: int, outcome: nat -> Frame)
    ensures var (start, reqs) := (Session(false, 0, id, None), [Command(Hello(HelloArgs(Some(3), None, None)))]);
            Answers(Server(None, version), reqs, start, outcome)[0].v3
  {
    var (start, reqs) := (Session(false, 0, id, None), [Command(Hello(HelloArgs(Some(3), None, None)))]);
    assert SessionAfter(Server(None, version), reqs, start, 0) == start;
  }

  lemma {:induction false} SessionPrefix(w: Server, reqs: seq<Event>, more: seq<Event>, s: Session, n: nat)
    requires n <= |reqs|
    ensures SessionAfter(w, reqs + more, s, n) == SessionAfter(w, reqs, s, n)
    decreases n
  {
    if n > 0 {
      SessionPrefix(w, reqs, more, s, n - 1);
    }
  }

  /** One more request: one more answer, the others as they were. */
  lemma AnswersMore(w: Server, reqs: seq<Event>, e: Event, s: Session, outcome: nat -> Frame)
    ensures var now := SessionAfter(w, reqs, s, |reqs|);
            && Answers(w, reqs + [e], s, outcome) == Answers(w, reqs, s, outcome) + [Answer(w, now, e, |reqs|, outcome(|reqs|))]
            && SessionAfter(w, reqs + [e], s, |reqs| + 1) == After(w, now, e)
  {
    forall i | 0 <= i <= |reqs| ensures SessionAfter(w, reqs + [e], s, i) == SessionAfter(w, reqs, s, i) {
      SessionPrefix(w, reqs, [e], s, i);
    }
  }

  // ---- Every schedule: the connection and its tasks as a state machine ----

  /** A spawned task: its request and the tenant it was given. */
  datatype Task = Task(request: nat, tenant: nat)

  /** Where the loop is: about to decode, waiting for the oldest task because the window is full,
      draining the window before it can act on an event, or gone. */
  datatype Mode = Ready | Full | Draining(event: Event) | Closed

  /** The connection. `done`: what has returned so far; `taken`: the requests decoded so far. */
  datatype Conn = Conn(
    session: Session, inflight: seq<Task>, done: map<nat, Frame>, sent: seq<Sent>, mode: Mode, taken: seq<Event>)

  /** The loop decodes; a task ends, with any reply, whenever it likes; the loop writes the oldest
      reply; with the window empty the loop acts on what it was draining for, and a command that is
      not HELLO may reply anything. */
  datatype Action = Take(event: Event) | Complete(request: nat, reply: Frame) | Emit | Act(reply: Frame)

  predicate Enabled(c: Conn, a: Action) {
    match a
    case Take(_) => c.mode.Ready?
    case Complete(i, _) => i !in c.done && exists j :: 0 <= j < |c.inflight| && c.inflight[j].request == i
    case Emit => (c.mode.Full? || c.mode.Draining?) && c.inflight != [] && c.inflight[0].request in c.done
    case Act(_) => c.mode.Draining? && c.inflight == []
  }

  function Step(w: Server, c: Conn, a: Action): Conn
    requires Enabled(c, a)
  {
    match a
    case Take(e) => TakeStep(c, e)
    case Complete(i, reply) => c.(done := c.done[i := reply])
    case Emit => EmitStep(c)
    case Act(reply) => ActStep(w, c, reply)
  }

  function TakeStep(c: Conn, e: Event): Conn {
    var taken := if IsRequest(e) then c.taken + [e] else c.taken;
    if IsPipelined(e) then
      var inflight := c.inflight + [Task(|c.taken|, c.session.tenant)];
      c.(inflight := inflight, taken := taken, mode := if |inflight| >= PIPELINE_WINDOW then Full else Ready)
    else c.(mode := Draining(e), taken := taken)
  }

  /** The reply is encoded in the version of the moment it is written. */
  function EmitStep(c: Conn): Conn
    requires Enabled(c, Emit)
  {
    var i := c.inflight[0].request;
    c.(inflight := c.inflight[1..], sent := c.sent + [Sent(i, c.done[i], c.session.v3)],
       mode := if c.mode.Full? then Ready else c.mode)
  }

  function ActStep(w: Server, c: Conn, reply: Frame): Conn
    requires c.mode.Draining?
  {
    var e := c.mode.event;
    if e.Starved? then c.(mode := Ready)
    else if e.Broken? then c.(sent := c.sent + [Sent(|c.taken|, reply, c.session.v3)], mode := Closed)
    else if e.Command? && e.verb.Hello? then
      var (answer, after) := DoHello(w, c.session, e.verb.args);
      c.(session := after, sent := c.sent + [Sent(|c.sent|, answer, after.v3)], mode := Ready)
    else
      c.(done := c.done[|c.sent| := reply], sent := c.sent + [Sent(|c.sent|, reply, c.session.v3)], mode := Ready)
  }

  function Fresh(s: Session): Conn {
    Conn(s, [], map[], [], Ready, [])
  }

  ghost predicate IsRun(w: Server, s: Session, run: seq<Conn>, acts: seq<Action>) {
    && |run| == |acts| + 1 && run[0] == Fresh(s)
    && forall i :: 0 <= i < |acts| ==> Enabled(run[i], acts[i]) && run[i + 1] == Step(w, run[i], acts[i])
  }

  /** What request `i` returned, once it has. */
  function Outcome(done: map<nat, Frame>): nat -> Frame {
    (i: nat) => if i in done then done[i] else Null
  }

  /** How many requests wait for the window to drain. */
  function Held(mode: Mode): nat {
    if mode.Draining? && IsRequest(mode.event) then 1 else 0
  }

  /** How many of the taken requests have been answered. */
  function Replied(c: Conn): int {
    |c.sent| - if c.mode.Closed? then 1 else 0
  }

  ghost predicate Windowed(c: Conn) {
    && |c.inflight| <= PIPELINE_WINDOW
    && (c.mode.Ready? ==> |c.inflight| < PIPELINE_WINDOW)
    && (c.mode.Draining? ==> !IsPipelined(c.mode.event))
    && (c.mode.Closed? ==> c.inflight == [])
    && 0 <= Replied(c) && Replied(c) + |c.inflight| + Held(c.mode) == |c.taken|
    && (Held(c.mode) == 1 ==> c.taken[|c.taken| - 1] == c.mode.event)
  }

  /** The session the first `n` requests left, being the one the connection is in. */
  ghost predicate Current(w: Server, s: Session, c: Conn, n: int) {
    0 <= n <= |c.taken| && SessionAfter(w, c.taken, s, n) == c.session
  }

  /** The window holds the requests not answered yet, in order, each taken in the session the
      connection is still in. */
  ghost predicate InOrder(w: Server, s: Session, c: Conn)
    requires Windowed(c)
  {
    && Current(w, s, c, |c.taken| - Held(c.mode))
    && forall j :: 0 <= j < |c.inflight| ==> Waiting(w, s, c, c.inflight[j], Replied(c) + j)
  }

  ghost predicate Waiting(w: Server, s: Session, c: Conn, t: Task, i: int) {
    0 <= i < |c.taken| && t == Task(i, c.session.tenant) && IsPipelined(c.taken[i]) && Current(w, s, c, i)
  }

  /** The reply to request `j` is the right one, and a task answered has ended. */
  ghost predicate Right(w: Server, s: Session, c: Conn, j: nat)
    requires j < |c.taken| && j < |c.sent|
  {
    && c.sent[j] == Answer(w, SessionAfter(w, c.taken, s, j), c.taken[j], j, Outcome(c.done)(j))
    && (IsPipelined(c.taken[j]) ==> j in c.done)
  }

  ghost predicate Answered(w: Server, s: Session, c: Conn)
    requires Windowed(c)
  {
    && (forall i :: i in c.done ==> i < |c.taken| - Held(c.mode))
    && forall j :: 0 <= j < Replied(c) ==> Right(w, s, c, j)
  }

  ghost predicate ConnInv(w: Server, s: Session, c: Conn) {
    Windowed(c) && InOrder(w, s, c) && Answered(w, s, c)
  }

  lemma TakeInv(w: Server, s: Session, c: Conn, e: Event)
    requires ConnInv(w, s, c) && c.mode.Ready?
    ensures ConnInv(w, s, TakeStep(c, e))
  {
    hide Answer, After, IsPipelineable, SessionAfter;
    var c' := TakeStep(c, e);
    if IsRequest(e) {
      forall j | 0 <= j <= |c.taken| ensures SessionAfter(w, c'.taken, s, j) == SessionAfter(w, c.taken, s, j) {
        SessionPrefix(w, c.taken, [e], s, j);
      }
      AnswersMore(w, c.taken, e, s, Outcome(c.done));
    }
    if IsPipelined(e) {
      PipelinedAnswer(w, c.session, e, 0, Null);
    }
    forall j | 0 <= j < Replied(c) ensures Right(w, s, c', j) {
      assert Right(w, s, c, j);
    }
    forall j | 0 <= j < |c.inflight| ensures Waiting(w, s, c', c'.inflight[j], Replied(c) + j) {
      assert Waiting(w, s, c, c.inflight[j], Replied(c) + j);
    }
  }

  lemma CompleteInv(w: Server, s: Session, c: Conn, i: nat, reply: Frame)
    requires ConnInv(w, s, c) && Enabled(c, Complete(i, reply))
    ensures ConnInv(w, s, Step(w, c, Complete(i, reply)))
  {
    hide Answer, After, IsPipelineable, SessionAfter;
    var j :| 0 <= j < |c.inflight| && c.inflight[j].request == i;
    assert Waiting(w, s, c, c.inflight[j], Replied(c) + j);
    var c' := Step(w, c, Complete(i, reply));
    forall k | 0 <= k < Replied(c) ensures Right(w, s, c', k) {
      assert Right(w, s, c, k);
    }
    forall k | 0 <= k < |c.inflight| ensures Waiting(w, s, c', c'.inflight[k], Replied(c) + k) {
      assert Waiting(w, s, c, c.inflight[k], Replied(c) + k);
    }
  }

  lemma EmitInv(w: Server, s: Session, c: Conn)
    requires ConnInv(w, s, c) && Enabled(c, Emit)
    ensures ConnInv(w, s, EmitStep(c))
  {
    hide Answer, After, IsPipelineable, SessionAfter;
    var (c', n) := (EmitStep(c), Replied(c));
    assert Waiting(w, s, c, c.inflight[0], n + 0);
    PipelinedAnswer(w, c.session, c.taken[n], n, c.done[n]);
    assert Right(w, s, c', n);
    forall j | 0 <= j < n ensures Right(w, s, c', j) {
      assert Right(w, s, c, j);
    }
    forall j | 0 <= j < |c'.inflight| ensures Waiting(w, s, c', c'.inflight[j], n + 1 + j) {
      assert Waiting(w, s, c, c.inflight[j + 1], n + (j + 1));
    }
  }

  lemma ActInv(w: Server, s: Session, c: Conn, reply: Frame)
    requires ConnInv(w, s, c) && Enabled(c, Act(reply))
    ensures ConnInv(w, s, ActStep(w, c, reply))
  {
    hide DoHello, IsPipelineable;
    var c' := ActStep(w, c, reply);
    if IsRequest(c.mode.event) {
      assert Right(w, s, c', |c.sent|);
    }
    forall j | 0 <= j < Replied(c) ensures Right(w, s, c', j) {
      assert Right(w, s, c, j);
    }
  }

  lemma {:induction false} RunInv(w: Server, s: Session, run: seq<Conn>, acts: seq<Action>, n: nat)
    requires IsRun(w, s, run, acts) && n < |run|
    ensures ConnInv(w, s, run[n])
    decreases n
  {
    hide ConnInv, TakeStep, EmitStep, ActStep;
    if n == 0 {
      FreshInv(w, s);
    } else {
      RunInv(w, s, run, acts, n - 1);
      var c := run[n - 1];
      assert Enabled(c, acts[n - 1]) && run[n - 1 + 1] == Step(w, c, acts[n - 1]);
      match acts[n - 1]
      case Take(e) => TakeInv(w, s, c, e);
      case Complete(i, reply) => CompleteInv(w, s, c, i, reply);
      case Emit => EmitInv(w, s, c);
      case Act(reply) => ActInv(w, s, c, reply);
    }
  }

  lemma FreshInv(w: Server, s: Session)
    ensures ConnInv(w, s, Fresh(s))
  {
  }

  /** Whatever order tasks end in and whatever they return: at every moment of every run what the
      client has received is one reply per request, in request order, each holding what that very
      request returned and written in the version its position calls for (`VersionAtSubmission`), and at
      most `PIPELINE_WINDOW` tasks are in flight, each given the tenant in force at its submission. */
  lemma RepliesInOrder(w: Server, s: Session, run: seq<Conn>, acts: seq<Action>, n: nat)
    requires IsRun(w, s, run, acts) && n < |run|
    ensures var (c, reqs) := (run[n], run[n].taken);
            && |c.inflight| <= PIPELINE_WINDOW
            && 0 <= Replied(c) <= |reqs| && Replied(c) <= |c.sent|
            && c.sent[..Replied(c)] == Answers(w, reqs, s, Outcome(c.done))[..Replied(c)]
            && (forall j :: 0 <= j < Replied(c) && IsPipelined(reqs[j]) ==> j in c.done)
            && (forall t :: t in c.inflight ==> t.request < |reqs| && t.tenant == SessionAfter(w, reqs, s, t.request).tenant)
  {
    RunInv(w, s, run, acts, n);
    var (c, reqs) := (run[n], run[n].taken);
    forall t | t in c.inflight ensures t.request < |reqs| && t.tenant == SessionAfter(w, reqs, s, t.request).tenant {
      var j :| 0 <= j < |c.inflight| && t == c.inflight[j];
      assert Waiting(w, s, c, c.inflight[j], Replied(c) + j);
    }
    forall j | 0 <= j < Replied(c)
      ensures c.sent[j] == Answers(w, reqs, s, Outcome(c.done))[j] && (IsPipelined(reqs[j]) ==> j in c.done)
    {
      assert Right(w, s, c, j);
    }
  }

  lemma {:induction false} TakenGrows(w: Server, s: Session, run: seq<Conn>, acts: seq<Action>, m: nat, n: nat)
    requires IsRun(w, s, run, acts) && m <= n < |run|
    ensures run[m].taken <= run[n].taken
    decreases n
  {
    hide DoHello, IsPipelineable;
    if m < n {
      TakenGrows(w, s, run, acts, m, n - 1);
      assert Enabled(run[n - 1], acts[n - 1]) && run[n - 1 + 1] == Step(w, run[n - 1], acts[n - 1]);
      assert run[n - 1].taken <= run[n].taken;
    }
  }

  /** Over every run: the reply to a request, written at whatever later moment, is in the version the
      connection was in at the step that took the request, if and only if the request is not a HELLO
      that is let in and names the other version. */
  lemma ReplyVersion(w: Server, s: Session, run: seq<Conn>, acts: seq<Action>, m: nat, n: nat)
    requires IsRun(w, s, run, acts) && m < |acts| && m < n < |run|
    requires acts[m].Take? && IsRequest(acts[m].event)
    requires |run[m].taken| < Replied(run[n])
    ensures var j := |run[m].taken|;
            && j < |run[n].sent| && run[n].sent[j].request == j
            && (run[n].sent[j].v3 == run[m].session.v3 <==> !Switches(w, run[m].session, acts[m].event))
  {
    hide DoHello, LogIn, IsPipelineable, Switches, ConnInv, Answers, Outcome, After;
    var (before, e, j) := (run[m].taken, acts[m].event, |run[m].taken|);
    assert Enabled(run[m], acts[m]) && run[m + 1] == Step(w, run[m], acts[m]);
    TakenGrows(w, s, run, acts, m + 1, n);
    TakenNow(w, s, run, acts, m);
    RepliesInOrder(w, s, run, acts, n);
    var reqs := run[n].taken;
    assert reqs == before + reqs[j..] && reqs[j] == e;
    SessionPrefix(w, before, reqs[j..], s, j);
    VersionAtSubmission(w, reqs, s, Outcome(run[n].done), j);
    var (sent, answers) := (run[n].sent, Answers(w, reqs, s, Outcome(run[n].done)));
    assert sent[j] == sent[..Replied(run[n])][j] && answers[j] == answers[..Replied(run[n])][j];
  }

  /** Between requests the connection is in the session they left. */
  lemma TakenNow(w: Server, s: Session, run: seq<Conn>, acts: seq<Action>, m: nat)
    requires IsRun(w, s, run, acts) && m < |run| && run[m].mode.Ready?
    ensures run[m].session == SessionAfter(w, run[m].taken, s, |run[m].taken|)
  {
    RunInv(w, s, run, acts, m);
  }

  /** Whenever the window is empty and nothing is held back, every request has its reply. */
  lemma AllAnswered(w: Server, s: Session, run: seq<Conn>, acts: seq<Action>, n: nat)
    requires IsRun(w, s, run, acts) && n < |run|
    requires run[n].inflight == [] && !run[n].mode.Draining?
    ensures var (c, answers) := (run[n], Answers(w, run[n].taken, s, Outcome(run[n].done)));
            if c.mode.Closed? then |c.sent| == |answers| + 1 && c.sent[..|answers|] == answers else c.sent == answers
  {
    RepliesInOrder(w, s, run, acts, n);
    RunInv(w, s, run, acts, n);
  }

  /** When a command that is not pipelined runs, every request before it has ended and been answered,
      and it runs in the session they left. */
  lemma BarrierAlone(w: Server, s: Session, run: seq<Conn>, acts: seq<Action>, n: nat)
    requires IsRun(w, s, run, acts) && n < |acts|
    requires acts[n].Act? && run[n].mode.Draining? && IsRequest(run[n].mode.event)
    ensures var (c, reqs) := (run[n], run[n].taken);
            && |reqs| > 0 && |c.sent| == |reqs| - 1 && reqs[|c.sent|] == c.mode.event
            && c.sent == Answers(w, reqs, s, Outcome(c.done))[..|c.sent|]
            && (forall j :: 0 <= j < |c.sent| && IsPipelined(reqs[j]) ==> j in c.done)
            && c.session == SessionAfter(w, reqs, s, |c.sent|)
  {
    assert Enabled(run[n], acts[n]);
    RepliesInOrder(w, s, run, acts, n);
    RunInv(w, s, run, acts, n);
  }

  // ---- The loop ----

  /** The decoded frames. */
  function Requests(events: seq<Event>): seq<Event> {
    if events == [] then []
    else
      var before := Requests(events[..|events| - 1]);
      if IsRequest(events[|events| - 1]) then before + [events[|events| - 1]] else before
  }

  /** The replies the window owes, if the version stays as it is. */
  function Owed(outcome: nat -> Frame, inflight: seq<Task>, v3: bool): seq<Sent> {
    seq(|inflight|, i requires 0 <= i < |inflight| => Sent(inflight[i].request, outcome(inflight[i].request), v3))
  }

  /** The loop over its own fields; `outcome` is what awaiting each task, or dispatching each command
      that is not pipelined, returns. */
  class Connection {
    const server: Server
    const outcome: nat -> Frame
    var session: Session
    var inflight: seq<Task>
    var sent: seq<Sent>
    /** The most tasks ever in flight. */
    ghost var peak: nat

    constructor (w: Server, o: nat -> Frame, s: Session)
      ensures server == w && outcome == o && session == s && inflight == [] && sent == [] && peak == 0
    {
      server, outcome := w, o;
      session, inflight, sent, peak := s, [], [], 0;
    }

    /** `emit_front!`: await the oldest task and write its reply. */
    method EmitFront()
      requires inflight != []
      modifies this`inflight, this`sent
      ensures inflight == old(inflight)[1..]
      ensures sent + Owed(outcome, inflight, session.v3) == old(sent) + Owed(outcome, old(inflight), session.v3)
    {
      var t := inflight[0];
      inflight := inflight[1..];
      sent := sent + [Sent(t.request, outcome(t.request), session.v3)];
      assert Owed(outcome, old(inflight), session.v3) == [sent[|sent| - 1]] + Owed(outcome, inflight, session.v3);
    }

    method Drain()
      modifies this`inflight, this`sent
      ensures inflight == [] && sent == old(sent) + Owed(outcome, old(inflight), session.v3)
    {
      while inflight != []
        invariant sent + Owed(outcome, inflight, session.v3) == old(sent) + Owed(outcome, old(inflight), session.v3)
        decreases |inflight|
      {
        EmitFront();
      }
      assert sent + [] == sent;
    }

    /** A pipelined command: spawned, and the oldest reply awaited once the window is full. */
    method Submit(request: nat)
      requires |inflight| < PIPELINE_WINDOW && peak <= PIPELINE_WINDOW
      modifies this`inflight, this`sent, this`peak
      ensures |inflight| < PIPELINE_WINDOW && peak <= PIPELINE_WINDOW
      ensures sent + Owed(outcome, inflight, session.v3) ==
              old(sent) + Owed(outcome, old(inflight), session.v3) + [Sent(request, outcome(request), session.v3)]
    {
      inflight := inflight + [Task(request, session.tenant)];
      peak := if peak < |inflight| then |inflight| else peak;
      assert Owed(outcome, inflight, session.v3) ==
             Owed(outcome, old(inflight), session.v3) + [Sent(request, outcome(request), session.v3)];
      if |inflight| >= PIPELINE_WINDOW {
        EmitFront();
      }
    }

    /** A command that is not pipelined, or a frame that is no command: only with an empty window. */
    method Alone(e: Event, request: nat)
      requires inflight == [] && IsRequest(e) && !IsPipelined(e)
      modifies this`session, this`sent
      ensures session == After(server, old(session), e)
      ensures sent == old(sent) + [Answer(server, old(session), e, request, outcome(request))]
    {
      var reply;
      if e.Command? && e.verb.Hello? {
        var r := DoHello(server, session, e.verb.args);
        reply, session := r.0, r.1;
      } else {
        reply := outcome(request);
      }
      sent := sent + [Sent(request, reply, session.v3)];
    }

    /** The connection loop, up to the end of the stream or its first protocol error: a reply per frame,
        in order, each in the version its position calls for; at most `PIPELINE_WINDOW` tasks in flight. */
    method Serve(events: seq<Turn>, protocol: Option<Frame>)
      requires inflight == [] && sent == [] && peak == 0
      modifies this
      ensures inflight == [] && peak <= PIPELINE_WINDOW
      ensures session == SessionAfter(server, Requests(events), old(session), |Requests(events)|)
      ensures var replies := Answers(server, Requests(events), old(session), outcome);
              sent == if protocol.Some? then replies + [Sent(|replies|, protocol.value, session.v3)] else replies
    {
      hide Answer, Answers, Owed, After, IsPipelineable, SessionAfter;
      var next := 0;
      ghost var reqs := [];
      ghost var s := session;
      NothingYet(server, s, outcome);
      for i := 0 to |events|
        invariant reqs == Requests(events[..i]) && next == |reqs|
        invariant |inflight| < PIPELINE_WINDOW && peak <= PIPELINE_WINDOW
        invariant session == SessionAfter(server, reqs, s, |reqs|)
        invariant sent + Owed(outcome, inflight, session.v3) == Answers(server, reqs, s, outcome)
      {
        assert events[..i + 1][..i] == events[..i];
        var e := events[i];
        AnswersMore(server, reqs, e, s, outcome);
        if IsPipelined(e) {
          PipelinedAnswer(server, session, e, next, outcome(next));
          Submit(next);
        } else {
          Drain();
          if IsRequest(e) {
            Alone(e, next);
          }
          NothingOwed(outcome, session.v3);
          assert sent + [] == sent;
        }
        if IsRequest(e) {
          reqs, next := reqs + [e], next + 1;
        }
      }
      assert events[..|events|] == events;
      Drain();
      if protocol.Some? {
        sent := sent + [Sent(next, protocol.value, session.v3)];
      }
    }
  }

  lemma NothingOwed(outcome: nat -> Frame, v3: bool)
    ensures Owed(outcome, [], v3) == []
  {
  }

  lemma NothingYet(w: Server, s: Session, outcome: nat -> Frame)
    ensures Owed(outcome, [], s.v3) == [] && Answers(w, [], s, outcome) == [] && SessionAfter(w, [], s, 0) == s
  {
  }

  /** A pipelined command leaves the session alone and is answered in its version. */
  lemma PipelinedAnswer(w: Server, s: Session, e: Event, i: nat, outcome: Frame)
    requires IsPipelined(e)
    ensures IsRequest(e) && After(w, s, e) == s && Answer(w, s, e, i, outcome) == Sent(i, outcome, s.v3)
  {
  }
}
