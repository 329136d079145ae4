/** The connection decision chain and the process-wide `USED_MUX` flag: once a mux has been
    connected, no automatic connection goes to a serial device.

    Environment variables, the file system, sockets and USB are inputs of each call.
 */
module MuxChain {
  import opened Protocol
  import E = Endpoint

  datatype TransportKind = Serial(port: string) | MuxUnix(path: string) | MuxTcp(endpoint: string)
  {
    predicate IsMux() {
      !Serial?
    }
  }

  /** What one call finds. `polls` are the paths that exist at each poll of a waiting loop;
      after the last the call is still waiting. */
  datatype Env = Env(
    tcpVar: Option<string>, tcpReachable: bool,
    muxVar: Option<string>, xdg: Option<string>,
    files: set<string>, polls: seq<set<string>>, socketAccepts: bool,
    usb: Option<string>, usbLater: Option<string>, serialOpens: bool,
    probeOk: bool)

  datatype Call =
    | ConnectWith(port: Option<string>)
    | TryConnectWith(port: Option<string>)
    | ConnectMuxAuto
    | MuxUnixConnect(path: string)
    | MuxTcpConnect(endpoint: E.TcpEndpoint)
  {
    predicate Automatic() {
      (ConnectWith? || TryConnectWith?) && port.None?
    }
  }

  /** How a call ends. `Tried` is the transport it committed to, whether that connected, and
      whether the probe that follows succeeded. */
  datatype Outcome = Tried(kind: TransportKind, connected: bool, probed: bool) | NothingFound | StillWaiting
  {
    predicate OpensSerial() {
      Tried? && kind.Serial?
    }

    predicate ConnectsMux() {
      Tried? && kind.IsMux() && connected
    }
  }

  const TMP_SOCKET := "/tmp/donglora-mux.sock"

  function XdgSocket(xdg: string): string {
    xdg + "/donglora/mux.sock"
  }

  function DefaultSocketPath(env: Env): string {
    if env.muxVar.Some? then env.muxVar.value
    else if env.xdg.Some? then XdgSocket(env.xdg.value)
    else TMP_SOCKET
  }

  function FindMuxSocket(env: Env): Option<string> {
    if env.muxVar.Some? then (if env.muxVar.value in env.files then env.muxVar else None)
    else if env.xdg.Some? && XdgSocket(env.xdg.value) in env.files then Some(XdgSocket(env.xdg.value))
    else if TMP_SOCKET in env.files then Some(TMP_SOCKET)
    else None
  }

  /** The TCP mux named by the environment, if it parses and answers. */
  function TcpFromEnv(env: Env): Option<string> {
    if env.tcpVar.None? then None
    else
      match E.ParseTcpEndpoint(env.tcpVar.value)
      case None => None
      case Some(e) => if env.tcpReachable then Some(E.Print(e)) else None
  }

  function Open(env: Env, kind: TransportKind, connects: bool): Outcome {
    Tried(kind, connects, connects && env.probeOk)
  }

  /** Index of the first poll at which the path exists, or |polls|. */
  function FirstPoll(polls: seq<set<string>>, path: string): (k: nat)
    ensures k <= |polls| && (k < |polls| ==> path in polls[k])
    ensures forall i :: 0 <= i < k ==> path !in polls[i]
  {
    if polls == [] || path in polls[0] then 0 else 1 + FirstPoll(polls[1..], path)
  }

  function Sticky(env: Env): Outcome {
    match TcpFromEnv(env)
    case Some(endpoint) => Open(env, MuxTcp(endpoint), true)
    case None =>
      if FirstPoll(env.polls, DefaultSocketPath(env)) == |env.polls| then StillWaiting
      else Open(env, MuxUnix(DefaultSocketPath(env)), env.socketAccepts)
  }

  /** TCP from the environment, then a Unix socket that exists, otherwise `fallback`. */
  function MuxThen(env: Env, fallback: Outcome): Outcome {
    match TcpFromEnv(env)
    case Some(endpoint) => Open(env, MuxTcp(endpoint), true)
    case None =>
      match FindMuxSocket(env)
      case Some(path) => Open(env, MuxUnix(path), env.socketAccepts)
      case None => fallback
  }

  function OpenSerial(env: Env, port: Option<string>, otherwise: Outcome): Outcome {
    match port
    case Some(p) => Open(env, Serial(p), env.serialOpens)
    case None => otherwise
  }

  function Decide(used: bool, call: Call, env: Env): Outcome {
    match call
    case ConnectWith(port) =>
      if port.Some? then OpenSerial(env, port, NothingFound)
      else if used then Sticky(env)
      else MuxThen(env, OpenSerial(env, if env.usb.Some? then env.usb else env.usbLater, StillWaiting))
    case TryConnectWith(port) =>
      if port.Some? then OpenSerial(env, port, NothingFound)
      else if used then
        (match FindMuxSocket(env)
         case Some(path) => Open(env, MuxUnix(path), env.socketAccepts)
         case None => NothingFound)
      else MuxThen(env, OpenSerial(env, env.usb, NothingFound))
    case ConnectMuxAuto => MuxThen(env, NothingFound)
    case MuxUnixConnect(path) => Open(env, MuxUnix(path), env.socketAccepts)
    case MuxTcpConnect(e) => Open(env, MuxTcp(E.Print(e)), env.tcpReachable)
  }

  /** The process's connection state, and the entry points that read and set it. */
  class Connector {
    var usedMux: bool

    constructor ()
      ensures !usedMux
    {
      usedMux := false;
    }

    method MuxFirst(env: Env) returns (found: Option<Outcome>)
      modifies this
      ensures found.None? <==> TcpFromEnv(env).None? && FindMuxSocket(env).None?
      ensures found.None? ==> usedMux == old(usedMux)
      ensures found.Some? ==>
        && (forall fallback :: found.value == MuxThen(env, fallback))
        && usedMux == (old(usedMux) || found.value.ConnectsMux())
    {
      var tcp := TcpFromEnv(env);
      if tcp.Some? {
        usedMux := true;
        return Some(Open(env, MuxTcp(tcp.value), true));
      }
      var path := FindMuxSocket(env);
      if path.Some? {
        if env.socketAccepts {
          usedMux := true;
        }
        return Some(Open(env, MuxUnix(path.value), env.socketAccepts));
      }
      found := None;
    }

    method ConnectMuxSticky(env: Env) returns (o: Outcome)
      ensures o == Sticky(env)
    {
      var tcp := TcpFromEnv(env);
      if tcp.Some? {
        return Open(env, MuxTcp(tcp.value), true);
      }
      var path := DefaultSocketPath(env);
      var i := 0;
      while i < |env.polls|
        invariant 0 <= i <= |env.polls| && forall j :: 0 <= j < i ==> path !in env.polls[j]
      {
        if path in env.polls[i] {
          return Open(env, MuxUnix(path), env.socketAccepts);
        }
        i := i + 1;
      }
      o := StillWaiting;
    }

    /** `connect_with`; `try_connect_with` when `wait` is false. */
    method Connect(port: Option<string>, wait: bool, env: Env) returns (o: Outcome)
      modifies this
      ensures o == Decide(old(usedMux), if wait then ConnectWith(port) else TryConnectWith(port), env)
      ensures usedMux == (old(usedMux) || o.ConnectsMux())
    {
      if port.Some? {
        return Open(env, Serial(port.value), env.serialOpens);
      }
      if usedMux {
        if wait {
          o := ConnectMuxSticky(env);
          return;
        }
        var path := FindMuxSocket(env);
        return if path.Some? then Open(env, MuxUnix(path.value), env.socketAccepts) else NothingFound;
      }
      var mux := MuxFirst(env);
      if mux.Some? {
        return mux.value;
      }
      var device := env.usb;
      if device.None? {
        if !wait {
          return NothingFound;
        }
        device := env.usbLater;
        if device.None? {
          return StillWaiting;
        }
      }
      o := Open(env, Serial(device.value), env.serialOpens);
    }

    method MuxOnly(call: Call, env: Env) returns (o: Outcome)
      requires call.ConnectMuxAuto? || call.MuxUnixConnect? || call.MuxTcpConnect?
      modifies this
      ensures o == Decide(old(usedMux), call, env)
      ensures usedMux == (old(usedMux) || o.ConnectsMux())
    {
      match call {
        case ConnectMuxAuto =>
          var mux := MuxFirst(env);
          o := if mux.Some? then mux.value else NothingFound;
        case MuxUnixConnect(path) =>
          if env.socketAccepts {
            usedMux := true;
          }
          o := Open(env, MuxUnix(path), env.socketAccepts);
        case MuxTcpConnect(e) =>
          if env.tcpReachable {
            usedMux := true;
          }
          o := Open(env, MuxTcp(E.Print(e)), env.tcpReachable);
      }
    }
  }

  // ---------------------------------------------------------------- runs of calls

  datatype Visit = Visit(call: Call, env: Env)

  /** The flag as the entry points maintain it. */
  function UsedAfter(used: bool, visits: seq<Visit>): bool
    decreases |visits|
  {
    if visits == [] then used
    else UsedAfter(used || Decide(used, visits[0].call, visits[0].env).ConnectsMux(), visits[1..])
  }

  function OutcomeOf(visits: seq<Visit>, i: nat): Outcome
    requires i < |visits|
  {
    Decide(UsedAfter(false, visits[..i]), visits[i].call, visits[i].env)
  }

  lemma {:induction false} UsedAppend(used: bool, visits: seq<Visit>, v: Visit)
    ensures UsedAfter(used, visits + [v]) ==
            (UsedAfter(used, visits) || Decide(UsedAfter(used, visits), v.call, v.env).ConnectsMux())
    decreases |visits|
  {
    if visits == [] {
      assert visits + [v] == [v] && [v][1..] == [];
    } else {
      assert (visits + [v])[0] == visits[0] && (visits + [v])[1..] == visits[1..] + [v];
      UsedAppend(used || Decide(used, visits[0].call, visits[0].env).ConnectsMux(), visits[1..], v);
    }
  }

  /** The flag is up exactly when some earlier call connected a mux transport, even one
      whose probe then failed. */
  lemma {:induction false} UsedIff(visits: seq<Visit>, n: nat)
    requires n <= |visits|
    ensures UsedAfter(false, visits[..n]) <==> exists i :: 0 <= i < n && OutcomeOf(visits, i).ConnectsMux()
    decreases n
  {
    if n > 0 {
      UsedIff(visits, n - 1);
      assert visits[..n] == visits[..n - 1] + [visits[n - 1]];
      UsedAppend(false, visits[..n - 1], visits[n - 1]);
      if UsedAfter(false, visits[..n]) && !UsedAfter(false, visits[..n - 1]) {
        assert OutcomeOf(visits, n - 1).ConnectsMux();
      }
    }
  }

  /** An automatic call goes to a serial device exactly when the flag is down, no mux can be
      found, and a device is there (or turns up, for the waiting variant). */
  lemma SerialOnlyIff(used: bool, call: Call, env: Env)
    requires call.Automatic()
    ensures Decide(used, call, env).OpensSerial() <==>
      && !used && TcpFromEnv(env).None? && FindMuxSocket(env).None?
      && (env.usb.Some? || (call.ConnectWith? && env.usbLater.Some?))
  {
  }

  /** An explicit port bypasses the mux: in every run such a call tries exactly that serial
      device, whatever the flag and the environment. */
  lemma ExplicitPortIsSerial(visits: seq<Visit>, j: nat, port: string)
    requires j < |visits|
    requires visits[j].call == ConnectWith(Some(port)) || visits[j].call == TryConnectWith(Some(port))
    ensures var env := visits[j].env;
            OutcomeOf(visits, j) == Tried(Serial(port), env.serialOpens, env.serialOpens && env.probeOk)
    ensures UsedAfter(false, visits[..j + 1]) == UsedAfter(false, visits[..j])
  {
    assert visits[..j + 1] == visits[..j] + [visits[j]];
    UsedAppend(false, visits[..j], visits[j]);
  }

  /** So does an explicit mux: the call tries exactly that socket or endpoint. */
  lemma ExplicitMuxIsTried(visits: seq<Visit>, j: nat)
    requires j < |visits|
    ensures var env := visits[j].env;
            match visits[j].call
            case MuxUnixConnect(path) =>
              OutcomeOf(visits, j) == Tried(MuxUnix(path), env.socketAccepts, env.socketAccepts && env.probeOk)
            case MuxTcpConnect(e) =>
              OutcomeOf(visits, j) == Tried(MuxTcp(E.Print(e)), env.tcpReachable, env.tcpReachable && env.probeOk)
            case _ => true
  {
  }

  /** The socket found is the one DONGLORA_MUX names, if set; otherwise the one under
      XDG_RUNTIME_DIR, if there; otherwise the one in /tmp, if there. */
  lemma FoundSocketIff(env: Env, path: string)
    ensures FindMuxSocket(env) == Some(path) <==>
      && path in env.files
      && if env.muxVar.Some? then path == env.muxVar.value
         else
           || (env.xdg.Some? && path == env.xdg.value + "/donglora/mux.sock")
           || (path == "/tmp/donglora-mux.sock"
               && (env.xdg.Some? ==> env.xdg.value + "/donglora/mux.sock" !in env.files))
  {
  }

  /** TCP is used when the variable is set, names an endpoint and that answers; the endpoint is
      then printed as host and port. */
  lemma TcpUsedIff(env: Env, endpoint: string)
    ensures TcpFromEnv(env) == Some(endpoint) <==>
      && env.tcpVar.Some? && E.ParseTcpEndpoint(env.tcpVar.value).Some? && env.tcpReachable
      && endpoint == E.Print(E.ParseTcpEndpoint(env.tcpVar.value).value)
  {
  }

  /** Before any mux has connected, an automatic call, and the mux-only one, prefer TCP to a
      Unix socket, and a Unix socket to anything else; a mux transport that is tried connects
      over TCP always, over a socket if that accepts, and is probed once connected. */
  lemma MuxPreferred(call: Call, env: Env)
    requires call.Automatic() || call.ConnectMuxAuto?
    ensures var o := Decide(false, call, env);
            match TcpFromEnv(env)
            case Some(endpoint) => o == Tried(MuxTcp(endpoint), true, env.probeOk)
            case None =>
              match FindMuxSocket(env)
              case Some(path) => o == Tried(MuxUnix(path), env.socketAccepts, env.socketAccepts && env.probeOk)
              case None => !(o.Tried? && o.kind.IsMux())
  {
  }

  /** Without a mux the call takes the device that is there; the waiting variant takes the one
      that turns up, or waits; the others find nothing. */
  lemma SerialTakes(call: Call, env: Env)
    requires call.Automatic() || call.ConnectMuxAuto?
    requires TcpFromEnv(env).None? && FindMuxSocket(env).None?
    ensures var o := Decide(false, call, env);
            var device := if env.usb.Some? then env.usb else if call.ConnectWith? then env.usbLater else None;
            if call.ConnectMuxAuto? then o == NothingFound
            else
              match device
              case Some(port) => o == Tried(Serial(port), env.serialOpens, env.serialOpens && env.probeOk)
              case None => o == if call.ConnectWith? then StillWaiting else NothingFound
  {
  }

  /** A sticky call tries TCP and then the default path, which it waits for; its non-blocking
      variant the socket found. */
  lemma StickyTries(env: Env)
    ensures var o := Decide(true, ConnectWith(None), env);
            match TcpFromEnv(env)
            case Some(endpoint) => o == Tried(MuxTcp(endpoint), true, env.probeOk)
            case None =>
              && (o == StillWaiting <==> forall i :: 0 <= i < |env.polls| ==> DefaultSocketPath(env) !in env.polls[i])
              && (o != StillWaiting ==>
                    o == Tried(MuxUnix(DefaultSocketPath(env)), env.socketAccepts, env.socketAccepts && env.probeOk))
    ensures var o := Decide(true, TryConnectWith(None), env);
            match FindMuxSocket(env)
            case Some(path) => o == Tried(MuxUnix(path), env.socketAccepts, env.socketAccepts && env.probeOk)
            case None => o == NothingFound
  {
  }

  /** Stickiness: once any call has connected a mux, no later automatic call opens a serial
      device, however the environment changes; and before that, one is opened only when no
      mux socket was found. */
  lemma MuxIsSticky(visits: seq<Visit>, i: nat, j: nat)
    requires i < j < |visits| && OutcomeOf(visits, i).ConnectsMux() && visits[j].call.Automatic()
    ensures !OutcomeOf(visits, j).OpensSerial()
  {
    UsedIff(visits, j);
    SerialOnlyIff(UsedAfter(false, visits[..j]), visits[j].call, visits[j].env);
  }

  lemma SerialMeansNoMux(visits: seq<Visit>, j: nat)
    requires j < |visits| && visits[j].call.Automatic() && OutcomeOf(visits, j).OpensSerial()
    ensures FindMuxSocket(visits[j].env).None?
    ensures forall i :: 0 <= i < j ==> !OutcomeOf(visits, i).ConnectsMux()
  {
    UsedIff(visits, j);
    SerialOnlyIff(UsedAfter(false, visits[..j]), visits[j].call, visits[j].env);
  }

  // ---------------------------------------------------------------- where stickiness waits

  /** The sticky `connect_with` waits at the default path, which is the socket
      `find_mux_socket` finds exactly when no earlier candidate is missing. */
  lemma DefaultIsFoundIff(env: Env)
    requires FindMuxSocket(env).Some?
    ensures FindMuxSocket(env).value == DefaultSocketPath(env) <==>
      env.muxVar.Some? || env.xdg.None? || XdgSocket(env.xdg.value) in env.files
  {
    if env.xdg.Some? {
      XdgIsNotTmp(env.xdg.value);
    }
  }

  /** So a process that connected through the socket in /tmp, with XDG_RUNTIME_DIR set, waits
      for ever when it reconnects, though the same socket is still there at every poll. */
  lemma StickyMissesTmpSocket(xdg: string, n: nat)
    ensures var env := Env(None, false, None, Some(xdg), {TMP_SOCKET}, seq(n, _ => {TMP_SOCKET}), true,
                           None, None, false, true);
            var first := Visit(ConnectWith(None), env);
            && OutcomeOf([first, first], 0) == Tried(MuxUnix(TMP_SOCKET), true, true)
            && OutcomeOf([first, first], 1) == StillWaiting
  {
    var env := Env(None, false, None, Some(xdg), {TMP_SOCKET}, seq(n, _ => {TMP_SOCKET}), true,
                   None, None, false, true);
    var first := Visit(ConnectWith(None), env);
    var visits := [first, first];
    assert visits[..0] == [] && visits[..1] == [] + [first];
    UsedAppend(false, [], first);
    XdgIsNotTmp(xdg);
    assert forall i :: 0 <= i < n ==> env.polls[i] == {TMP_SOCKET};
  }

  /** Every poll of the waiting loop sees the same files; the first poll is immediate. */
  ghost predicate Steady(env: Env) {
    env.polls != [] && forall i :: 0 <= i < |env.polls| ==> env.polls[i] == env.files
  }

  lemma XdgIsNotTmp(xdg: string)
    ensures XdgSocket(xdg) != TMP_SOCKET
  {
    var tail := "/donglora/mux.sock";
    assert XdgSocket(xdg)[|XdgSocket(xdg)| - 9] == tail[|tail| - 9];
  }

  /** In a steady environment a sticky `connect_with` waits for ever although a socket is
      there to be found exactly when TCP does not answer, DONGLORA_MUX is not set,
      XDG_RUNTIME_DIR is, and the socket is in /tmp and not under it. */
  lemma StickyWaitsInVainIff(env: Env)
    requires Steady(env)
    ensures Sticky(env) == StillWaiting && FindMuxSocket(env).Some? <==>
      && TcpFromEnv(env).None? && env.muxVar.None? && env.xdg.Some?
      && XdgSocket(env.xdg.value) !in env.files && TMP_SOCKET in env.files
  {
    assert FirstPoll(env.polls, DefaultSocketPath(env)) == |env.polls| <==> DefaultSocketPath(env) !in env.files by {
      assert env.polls[0] == env.files;
    }
    if env.xdg.Some? {
      XdgIsNotTmp(env.xdg.value);
    }
  }

  /** Stickiness costs the non-blocking variant a mux exactly when TCP answers and no Unix
      socket is found, or the one found refuses: a process that never connected one gets a
      mux in that environment, one that did gets none. */
  lemma StickyTryLosesMuxIff(env: Env)
    ensures (Decide(false, TryConnectWith(None), env).ConnectsMux()
             && !Decide(true, TryConnectWith(None), env).ConnectsMux())
      <==> TcpFromEnv(env).Some? && !(FindMuxSocket(env).Some? && env.socketAccepts)
  {
  }

  /** In any run, once a mux has connected, an automatic non-blocking call connects one
      exactly when it finds a Unix socket that accepts, whatever TCP would do. */
  lemma StickyTryReachesMuxIff(visits: seq<Visit>, i: nat, j: nat)
    requires i < j < |visits| && OutcomeOf(visits, i).ConnectsMux() && visits[j].call == TryConnectWith(None)
    ensures OutcomeOf(visits, j).ConnectsMux() <==> FindMuxSocket(visits[j].env).Some? && visits[j].env.socketAccepts
  {
    UsedIff(visits, j);
  }

  /** So a process that came in over TCP, in an environment without Unix sockets, cannot
      reconnect with `try_connect_with`, any number of times, though TCP still answers. */
  lemma StickyTryIgnoresTcp(e: E.TcpEndpoint, n: nat)
    requires e.host != ""
    ensures var env := Env(Some(E.Print(e)), true, None, None, {}, [], true, None, None, false, true);
            var visits := [Visit(ConnectWith(None), env)] + seq(n, _ => Visit(TryConnectWith(None), env));
            && OutcomeOf(visits, 0) == Tried(MuxTcp(E.Print(e)), true, true)
            && (forall j :: 0 < j < |visits| ==> OutcomeOf(visits, j) == NothingFound)
            && TcpFromEnv(env) == Some(E.Print(e))
  {
    var env := Env(Some(E.Print(e)), true, None, None, {}, [], true, None, None, false, true);
    var visits := [Visit(ConnectWith(None), env)] + seq(n, _ => Visit(TryConnectWith(None), env));
    E.RoundTripIff(e);
    assert visits[..0] == [];
    forall j | 0 < j < |visits| ensures OutcomeOf(visits, j) == NothingFound {
      UsedIff(visits, j);
      assert OutcomeOf(visits, 0).ConnectsMux();
    }
  }
}
