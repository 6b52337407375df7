/**
 * The sidebar's device list badges and its wireless form: the connect box,
 * the recent-devices list and the pairing box. The form keeps three text
 * fields of its own; `onConnect` and `onPair` belong to the hook and are
 * recorded here as the calls the form makes.
 */
module Sidebar {
  import opened Text
  import Hook

  // ---------------------------------------------------------------------
  // Device badges
  // ---------------------------------------------------------------------

  /** The status badge of device `d`: "Live" while a session runs on it. */
  function StatusBadge(running: seq<string>, d: string): (caption: string)
    ensures caption == "Live" <==> d in running
    ensures caption == "Ready" <==> d !in running
  {
    if d in running then "Live" else "Ready"
  }

  /** The link badge of device `d`: network ids (`ip:port`) contain a dot, USB serials do not. */
  function LinkBadge(d: string): (caption: string)
    ensures caption == "Wi-Fi" <==> '.' in d
    ensures caption == "USB" <==> '.' !in d
  {
    if '.' in d then "Wi-Fi" else "USB"
  }

  /** The selected device shows "Live" exactly when the hook counts its session as running. */
  lemma SelectedLiveIffSessionRunning(s: Hook.HookState)
    ensures StatusBadge(s.running, s.activeDevice) == "Live" <==> Hook.SessionRunning(s)
  {
  }

  // ---------------------------------------------------------------------
  // Pairing target
  // ---------------------------------------------------------------------

  const ConnectPort := ":5555"

  /**
   * `pairIp.split(':')[0] + ":5555"`: the host part of the pairing address
   * with the pairing port replaced by the default adb port.
   */
  function ConnectTarget(pairIp: string): (target: string)
    ensures target == Before(pairIp, ':') + ConnectPort
    ensures StartsWith(pairIp, target[..|target| - |ConnectPort|])
    ensures Count(target, ':') == 1
    ensures EndsWith(target, ConnectPort)
  {
    BeforeIsFirstPiece(pairIp, ':');
    var host := SplitOn(pairIp, ':')[0];
    CountAbsent(host, ':');
    CountAppend(host, ConnectPort, ':');
    assert Count(ConnectPort, ':') == 1 by {
      assert ConnectPort == [':'] + "5555";
      CountAppend([':'], "5555", ':');
      CountAbsent("5555", ':');
      assert [':'] == [] + [':'];
    }
    assert (host + ConnectPort)[..|host|] == host;
    host + ConnectPort
  }

  /** `host:port` with a colon-free host pairs into `host:5555`. */
  lemma ConnectTargetOfAddress(host: string, port: string)
    requires ':' !in host
    ensures ConnectTarget(host + ":" + port) == host + ConnectPort
  {
    BeforeConcat(host, ':', port);
  }

  /** Deriving the target of a target changes nothing. */
  lemma {:induction false} ConnectTargetIdempotent(pairIp: string)
    ensures ConnectTarget(ConnectTarget(pairIp)) == ConnectTarget(pairIp)
  {
    var host := Before(pairIp, ':');
    assert ConnectTarget(pairIp) == host + ":" + "5555";
    ConnectTargetOfAddress(host, "5555");
  }

  // ---------------------------------------------------------------------
  // The wireless form
  // ---------------------------------------------------------------------

  /** A call the form makes into the hook. */
  datatype Callback = Connect(ip: string) | Pair(ip: string, code: string)

  class WirelessForm {
    var connectIp: string
    var pairIp: string
    var pairCode: string
    /** The `onConnect` / `onPair` calls made so far, in order. */
    ghost var calls: seq<Callback>

    constructor()
      ensures connectIp == "" && pairIp == "" && pairCode == "" && calls == []
    {
      connectIp := "";
      pairIp := "";
      pairCode := "";
      calls := [];
    }

    /** Typing into the connect box. */
    method EditConnectIp(v: string)
      modifies this
      ensures connectIp == v && pairIp == old(pairIp) && pairCode == old(pairCode) && calls == old(calls)
    {
      connectIp := v;
    }

    /** Typing into the pairing address box. */
    method EditPairIp(v: string)
      modifies this
      ensures pairIp == v && connectIp == old(connectIp) && pairCode == old(pairCode) && calls == old(calls)
    {
      pairIp := v;
    }

    /** Typing into the pairing code box. */
    method EditPairCode(v: string)
      modifies this
      ensures pairCode == v && connectIp == old(connectIp) && pairIp == old(pairIp) && calls == old(calls)
    {
      pairCode := v;
    }

    /** `handleConnect(ip)`: an empty address makes no call, any other exactly one. */
    method HandleConnect(ip: string) returns (called: bool)
      modifies this
      ensures called <==> ip != ""
      ensures calls == old(calls) + (if ip == "" then [] else [Connect(ip)])
      ensures connectIp == old(connectIp) && pairIp == old(pairIp) && pairCode == old(pairCode)
    {
      if ip == "" {
        return false;
      }
      calls := calls + [Connect(ip)];
      called := true;
    }

    /** The Connect button, disabled while a refresh is in flight. */
    method ConnectClicked(isRefreshing: bool) returns (called: bool)
      modifies this
      ensures called <==> !isRefreshing && connectIp != ""
      ensures calls == old(calls) + (if called then [Connect(connectIp)] else [])
      ensures connectIp == old(connectIp) && pairIp == old(pairIp) && pairCode == old(pairCode)
    {
      called := false;
      if !isRefreshing {
        called := HandleConnect(connectIp);
      }
    }

    /** A recent-devices entry: fill the connect box with it and connect to it. */
    method HistoryClicked(ip: string) returns (called: bool)
      modifies this
      ensures connectIp == ip
      ensures called <==> ip != ""
      ensures calls == old(calls) + (if ip == "" then [] else [Connect(ip)])
      ensures pairIp == old(pairIp) && pairCode == old(pairCode)
    {
      connectIp := ip;
      called := HandleConnect(ip);
    }

    /**
     * The Start Pairing button. Nothing happens unless both pairing boxes
     * are filled and no refresh is in flight; otherwise `onPair` is called,
     * and on success the connect box gets the derived target, the code box
     * is cleared and the target is connected to.
     */
    method PairClicked(isRefreshing: bool, success: bool) returns (paired: bool)
      modifies this
      ensures paired <==> pairIp != "" && old(pairCode) != "" && !isRefreshing
      ensures pairIp == old(pairIp)
      ensures !paired ==> calls == old(calls) && connectIp == old(connectIp) && pairCode == old(pairCode)
      ensures paired && !success ==>
        calls == old(calls) + [Pair(pairIp, old(pairCode))] && connectIp == old(connectIp) && pairCode == old(pairCode)
      ensures paired && success ==>
        calls == old(calls) + [Pair(pairIp, old(pairCode)), Connect(ConnectTarget(pairIp))]
        && connectIp == ConnectTarget(pairIp) && pairCode == ""
    {
      if pairIp == "" || pairCode == "" || isRefreshing {
        return false;
      }
      paired := true;
      calls := calls + [Pair(pairIp, pairCode)];
      if success {
        var target := ConnectTarget(pairIp);
        connectIp := target;
        pairCode := "";
        var _ := HandleConnect(target);
      }
    }
  }
}
