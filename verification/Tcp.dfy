/** One TCP connection between a client (child) and a server (parent): the client sends a
    request and waits for the answer; the server answers, shuts down its sending side and
    reads on; the client closes and exits.  Messages arrive whole. */
module Tcp {
  import opened Basics

  /** One direction: bytes in flight or buffered, and whether the sender has finished. */
  datatype Stream = Stream(buf: seq<byte>, fin: bool)

  datatype ClientPc = Connect | SendRequest | ReceiveAnswer | Close | Exit | Gone

  datatype ServerPc = Accept | ReceiveRequest | SendAnswer | Shutdown | ReceiveEnd | WaitClient | Finished

  datatype State = State(
    request: seq<byte>, answer: seq<byte>, connected: bool,
    up: Stream, down: Stream,               // client to server, server to client
    c: ClientPc, s: ServerPc,
    got: seq<byte>, last: Option<nat>,      // what the server read; what its last recv returned
    code: nat)

  function Start(request: seq<byte>, answer: seq<byte>): State {
    State(request, answer, false, Stream([], false), Stream([], false), Connect, Accept, [], None, 0)
  }

  datatype Side = Client | Server

  /** recv: everything buffered, or 0 bytes once the sender has finished; None while waiting. */
  function Recv(x: Stream): Option<(Stream, seq<byte>)> {
    if x.buf != [] then Some((x.(buf := []), x.buf))
    else if x.fin then Some((x, []))
    else None
  }

  function Next(st: State, who: Side): Option<State> {
    match who
    case Client =>
      (match st.c
       case Connect => Some(st.(connected := true, c := SendRequest))
       case SendRequest => Some(st.(up := st.up.(buf := st.up.buf + st.request), c := ReceiveAnswer))
       case ReceiveAnswer =>
         (match Recv(st.down)
          case None => None
          case Some((d, bytes)) =>
            Some(if bytes == [] || bytes != st.answer then st.(down := d, c := Exit, code := 4)
                 else st.(down := d, c := Close)))
       case Close => Some(st.(up := st.up.(fin := true), c := Exit))
       case Exit => Some(st.(up := st.up.(fin := true), c := Gone))
       case Gone => None)
    case Server =>
      match st.s
      case Accept => if st.connected then Some(st.(s := ReceiveRequest)) else None
      case ReceiveRequest =>
        (match Recv(st.up)
         case None => None
         case Some((u, bytes)) => Some(st.(up := u, got := bytes, s := SendAnswer)))
      case SendAnswer => Some(st.(down := st.down.(buf := st.down.buf + st.answer), s := Shutdown))
      case Shutdown => Some(st.(down := st.down.(fin := true), s := ReceiveEnd))
      case ReceiveEnd =>
        (match Recv(st.up)
         case None => None
         case Some((u, bytes)) => Some(st.(up := u, last := Some(|bytes|), s := WaitClient)))
      case WaitClient => if st.c == Gone then Some(st.(s := Finished)) else None
      case Finished => None
  }

  function Run(st: State, schedule: seq<Side>): Option<State>
    decreases |schedule|
  {
    if schedule == [] then Some(st)
    else match Next(st, schedule[0])
      case None => None
      case Some(t) => Run(t, schedule[1..])
  }

  function ClientSteps(c: ClientPc): nat {
    match c case Connect => 0 case SendRequest => 1 case ReceiveAnswer => 2
            case Close => 3 case Exit => 4 case Gone => 5
  }

  function ServerSteps(s: ServerPc): nat {
    match s case Accept => 0 case ReceiveRequest => 1 case SendAnswer => 2 case Shutdown => 3
            case ReceiveEnd => 4 case WaitClient => 5 case Finished => 6
  }

  ghost predicate Inv(st: State) {
    var c, s := ClientSteps(st.c), ServerSteps(st.s);
    && st.request != [] && st.answer != []
    && (st.connected <==> c >= 1) && (s >= 1 ==> c >= 1)
    && st.up.buf == (if c >= 2 && s < 2 then st.request else [])
    && (s >= 2 ==> c >= 2 && st.got == st.request)
    && st.up.fin == (c >= 4)
    && st.down.buf == (if s >= 3 && c < 3 then st.answer else [])
    && (c >= 3 ==> s >= 3)
    && st.down.fin == (s >= 4)
    && (s >= 5 ==> c >= 4 && st.last == Some(0))
    && (s == 6 ==> c == 5)
    && st.code == 0
  }

  lemma NextKeepsInv(st: State, who: Side)
    requires Inv(st) && Next(st, who).Some?
    ensures Inv(Next(st, who).value)
    ensures ClientSteps(Next(st, who).value.c) + ServerSteps(Next(st, who).value.s) ==
      ClientSteps(st.c) + ServerSteps(st.s) + 1
    ensures Next(st, who).value.request == st.request && Next(st, who).value.answer == st.answer
  {
  }

  lemma {:induction false} RunInv(st: State, schedule: seq<Side>)
    requires Inv(st) && Run(st, schedule).Some?
    ensures var t := Run(st, schedule).value;
      Inv(t) && t.request == st.request && t.answer == st.answer &&
      ClientSteps(t.c) + ServerSteps(t.s) == ClientSteps(st.c) + ServerSteps(st.s) + |schedule|
    decreases |schedule|
  {
    hide Inv, Next;
    if schedule != [] {
      NextKeepsInv(st, schedule[0]);
      RunInv(Next(st, schedule[0]).value, schedule[1..]);
    }
  }

  ghost predicate Stuck(st: State) {
    forall who: Side :: Next(st, who).None?
  }

  /** In every interleaving there is no cyclic wait: a run that cannot go on has made all eleven
      steps, the client has exited 0, the server has read the request, and its recv after
      SHUT_WR returned 0, which it can only do once the client has closed. */
  lemma {:induction false} ExchangeFinishes(request: seq<byte>, answer: seq<byte>, schedule: seq<Side>)
    requires request != [] && answer != [] && Run(Start(request, answer), schedule).Some?
    ensures var st := Run(Start(request, answer), schedule).value;
      && |schedule| <= 11
      && (Stuck(st) <==> |schedule| == 11)
      && (Stuck(st) ==> st.c == Gone && st.s == Finished && st.code == 0 && st.got == request && st.last == Some(0))
      && (st.last.Some? ==> st.last == Some(0) && (st.c == Exit || st.c == Gone))
      && (st.c == Gone ==> st.code == 0)
  {
    RunInv(Start(request, answer), schedule);
    LastOnlyAtEnd(Start(request, answer), schedule);
    var st := Run(Start(request, answer), schedule).value;
    if Stuck(st) {
      assert Next(st, Client).None? && Next(st, Server).None?;
    }
  }

  lemma {:induction false} LastOnlyAtEnd(st: State, schedule: seq<Side>)
    requires Run(st, schedule).Some? && (st.last.Some? ==> ServerSteps(st.s) >= 5)
    ensures Run(st, schedule).value.last.Some? ==> ServerSteps(Run(st, schedule).value.s) >= 5
    decreases |schedule|
  {
    if schedule != [] { LastOnlyAtEnd(Next(st, schedule[0]).value, schedule[1..]); }
  }
}
