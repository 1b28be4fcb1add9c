/**
 * The batch lookup `OV.getMacAddresses`: the addresses are joined with ","
 * into one request body; the response is cut into frames, only the frames
 * whose `type` is "LocatorFwdResponseObject" are kept, and the elements of
 * their `response.ovResponseObject` arrays are pushed, frame after frame,
 * into one list.
 */
module Locator {
  import opened Wrappers
  import opened Json
  import opened Http
  import Demux
  import Session

  const Separator: char := ','
  const LocatorType := "LocatorFwdResponseObject"
  const BrowsePath := "/api/locator/browse"

  // ---------------------------------------------------------------------
  // The address list.
  // ---------------------------------------------------------------------

  /** The addresses separated by ",", with no separator after the last one. */
  function JoinAddresses(ip: seq<string>): string
  {
    if |ip| == 0 then ""
    else if |ip| == 1 then ip[0]
    else ip[0] + [Separator] + JoinAddresses(ip[1..])
  }

  lemma {:induction false} JoinAddressesSnoc(ip: seq<string>, addr: string)
    requires |ip| >= 1
    ensures JoinAddresses(ip + [addr]) == JoinAddresses(ip) + [Separator] + addr
    decreases |ip|
  {
    if |ip| == 1 {
      assert (ip + [addr])[1..] == [addr];
    } else {
      JoinAddressesSnoc(ip[1..], addr);
      assert (ip + [addr])[1..] == ip[1..] + [addr];
    }
  }

  /** The `ip.forEach` loop that builds `ipList`. */
  method BuildIpList(ip: seq<string>) returns (ipList: string)
    ensures ipList == JoinAddresses(ip)
  {
    ipList := "";
    for idx := 0 to |ip|
      invariant ipList == JoinAddresses(ip[..idx]) + (if 0 < idx < |ip| then [Separator] else "")
    {
      if idx > 0 {
        JoinAddressesSnoc(ip[..idx], ip[idx]);
        assert ip[..idx + 1] == ip[..idx] + [ip[idx]];
      } else {
        assert ip[..1] == [ip[0]];
      }
      ipList := ipList + ip[idx] + (if idx != |ip| - 1 then [Separator] else "");
    }
    assert ip[..|ip|] == ip;
  }

  /** How often c occurs in s. */
  function Occurrences(s: string, c: char): nat
  {
    if s == [] then 0 else (if s[0] == c then 1 else 0) + Occurrences(s[1..], c)
  }

  lemma {:induction false} OccurrencesAppend(a: string, b: string, c: char)
    ensures Occurrences(a + b, c) == Occurrences(a, c) + Occurrences(b, c)
    decreases |a|
  {
    if a == [] {
      assert a + b == b;
    } else {
      OccurrencesAppend(a[1..], b, c);
      assert (a + b)[1..] == a[1..] + b;
    }
  }

  lemma {:induction false} NoOccurrences(s: string, c: char)
    requires c !in s
    ensures Occurrences(s, c) == 0
    decreases |s|
  {
    if s != [] {
      assert s[0] in s;
      assert forall x :: x in s[1..] ==> x in s;
      NoOccurrences(s[1..], c);
    }
  }

  /** Addresses without commas give a list with exactly one comma fewer than addresses; none gives "". */
  lemma {:induction false} JoinAddressesSeparators(ip: seq<string>)
    requires forall i :: 0 <= i < |ip| ==> Separator !in ip[i]
    ensures |ip| == 0 ==> JoinAddresses(ip) == ""
    ensures |ip| >= 1 ==> Occurrences(JoinAddresses(ip), Separator) == |ip| - 1
    decreases |ip|
  {
    if |ip| == 1 {
      NoOccurrences(ip[0], Separator);
    } else if |ip| > 1 {
      JoinAddressesSeparators(ip[1..]);
      NoOccurrences(ip[0], Separator);
      OccurrencesAppend(ip[0], [Separator], Separator);
      OccurrencesAppend(ip[0] + [Separator], JoinAddresses(ip[1..]), Separator);
      assert Occurrences([Separator], Separator) == 1 by {
        assert [Separator][1..] == [];
      }
    }
  }

  /** `s.split(",")`. */
  function SplitAddresses(s: string): (parts: seq<string>)
    ensures |parts| >= 1
  {
    if s == [] then [""]
    else if s[0] == Separator then [""] + SplitAddresses(s[1..])
    else
      var rest := SplitAddresses(s[1..]);
      [[s[0]] + rest[0]] + rest[1..]
  }

  lemma {:induction false} SplitAddressAndRest(addr: string, rest: string)
    requires Separator !in addr
    ensures SplitAddresses(addr + [Separator] + rest) == [addr] + SplitAddresses(rest)
    decreases |addr|
  {
    var s := addr + [Separator] + rest;
    if addr == [] {
      assert s == [Separator] + rest && s[1..] == rest;
    } else {
      assert s[0] == addr[0] && addr[0] in addr;
      assert forall x :: x in addr[1..] ==> x in addr;
      SplitAddressAndRest(addr[1..], rest);
      assert s[1..] == addr[1..] + [Separator] + rest;
      assert [s[0]] + addr[1..] == addr;
    }
  }

  lemma {:induction false} SplitSingleAddress(addr: string)
    requires Separator !in addr
    ensures SplitAddresses(addr) == [addr]
    decreases |addr|
  {
    if addr != [] {
      assert addr[0] in addr;
      assert forall x :: x in addr[1..] ==> x in addr;
      SplitSingleAddress(addr[1..]);
      assert [addr[0]] + addr[1..] == addr;
    }
  }

  /** Splitting the list at "," recovers the addresses. */
  lemma {:induction false} JoinAddressesRoundTrip(ip: seq<string>)
    requires |ip| >= 1
    requires forall i :: 0 <= i < |ip| ==> Separator !in ip[i]
    ensures SplitAddresses(JoinAddresses(ip)) == ip
    decreases |ip|
  {
    if |ip| == 1 {
      SplitSingleAddress(ip[0]);
    } else {
      JoinAddressesRoundTrip(ip[1..]);
      SplitAddressAndRest(ip[0], JoinAddresses(ip[1..]));
      assert [ip[0]] + ip[1..] == ip;
    }
  }

  // ---------------------------------------------------------------------
  // The frames.
  // ---------------------------------------------------------------------

  /** `entry.type === "LocatorFwdResponseObject"`. */
  predicate IsLocatorFrame(f: Json)
  {
    f.JObj? && "type" in f.fields && f.fields["type"] == JStr(LocatorType)
  }

  /** Reading `entry.type` throws only on a null frame. */
  predicate NoNullFrame(frames: seq<Json>)
  {
    forall i :: 0 <= i < |frames| ==> frames[i] != JNull
  }

  /** `result.filter(...)`: the locator frames in their order. */
  function LocatorFrames(frames: seq<Json>): seq<Json>
  {
    if frames == [] then []
    else LocatorFrames(frames[..|frames| - 1])
         + (if IsLocatorFrame(frames[|frames| - 1]) then [frames[|frames| - 1]] else [])
  }

  /** `entry.response.ovResponseObject` when it is an array; anything else makes `forEach` throw. */
  function Ports(f: Json): Option<seq<Json>>
  {
    match Member(f, "response")
    case Success(Some(response)) =>
      (match Member(response, "ovResponseObject")
       case Success(Some(JArr(ports))) => Some(ports)
       case _ => None)
    case _ => None
  }

  /** The ports of all the entries, entry after entry; None when one entry has no port array. */
  function Flatten(entries: seq<Json>): (r: Option<seq<Json>>)
    ensures r.Some? <==> forall i :: 0 <= i < |entries| ==> Ports(entries[i]).Some?
  {
    if entries == [] then Some([])
    else
      match Flatten(entries[..|entries| - 1])
      case None => None
      case Some(front) =>
        match Ports(entries[|entries| - 1])
        case None => None
        case Some(ports) => Some(front + ports)
  }

  /** What the request callback resolves with, rejects with, or throws without settling. */
  datatype MacOutcome = Resolved(macs: seq<Json>) | Rejected(error: Error) | Uncaught(error: Error)

  /** The outcome of `getMacAddresses` for the transport's reply. */
  function Macs(reply: Transport, parse: string -> Option<Json>): MacOutcome
  {
    match reply
    case Failed(cause) => Rejected(TransportError(cause))
    case Delivered(response) =>
      match Demux.Demux(parse, response.body)
      case None => Uncaught(SyntaxError)
      case Some(frames) =>
        if !NoNullFrame(frames) then Uncaught(TypeError)
        else
          match Flatten(LocatorFrames(frames))
          case None => Uncaught(TypeError)
          case Some(macs) => Resolved(macs)
  }

  /** The nested `forEach` loops that push every port of every kept entry into `macs`. */
  method CollectPorts(entries: seq<Json>) returns (r: Option<seq<Json>>)
    ensures r == Flatten(entries)
  {
    var macs: seq<Json> := [];
    for k := 0 to |entries|
      invariant Flatten(entries[..k]) == Some(macs)
    {
      assert entries[..k + 1][..k] == entries[..k];
      var ports := Ports(entries[k]);
      if ports.None? {
        return None;
      }
      var m := 0;
      while m < |ports.value|
        invariant 0 <= m <= |ports.value|
        invariant macs == Flatten(entries[..k]).value + ports.value[..m]
      {
        macs := macs + [ports.value[m]];
        m := m + 1;
        assert ports.value[..m] == ports.value[..m - 1] + [ports.value[m - 1]];
      }
      assert ports.value[..m] == ports.value;
    }
    assert entries[..|entries|] == entries;
    r := Some(macs);
  }

  /** `getMacAddresses(ip)`: the request it posts and the outcome for the reply. */
  method GetMacAddresses(ov: Session.OV, ip: seq<string>, reply: Transport, parse: string -> Option<Json>)
    returns (request: Request, r: MacOutcome)
    ensures request.verb == Post && request.url == ov.url + BrowsePath
    ensures request.headers == ov.Headers()
    ensures request.body == Some(JoinAddresses(ip))
    ensures r == Macs(reply, parse)
  {
    var ipList := BuildIpList(ip);
    request := Request(Post, ov.url + BrowsePath, ov.Headers(), Some(ipList));
    if reply.Failed? {
      return request, Rejected(TransportError(reply.cause));
    }
    var result := Demux.Result2Json(reply.response.body, parse);
    if result.None? {
      return request, Uncaught(SyntaxError);
    }
    if !NoNullFrame(result.value) {
      return request, Uncaught(TypeError);
    }
    var entries := LocatorFrames(result.value);
    var macs := CollectPorts(entries);
    if macs.None? {
      return request, Uncaught(TypeError);
    }
    r := Resolved(macs.value);
  }

  // ---------------------------------------------------------------------
  // What the result holds.
  // ---------------------------------------------------------------------

  lemma {:induction false} LocatorFramesAppend(a: seq<Json>, b: seq<Json>)
    ensures LocatorFrames(a + b) == LocatorFrames(a) + LocatorFrames(b)
    decreases |b|
  {
    if b == [] {
      assert a + b == a;
    } else {
      LocatorFramesAppend(a, b[..|b| - 1]);
      assert (a + b)[..|a + b| - 1] == a + b[..|b| - 1];
    }
  }

  /** A frame of another type is dropped, wherever it stands. */
  lemma OtherFrameDropped(a: seq<Json>, f: Json, b: seq<Json>)
    requires !IsLocatorFrame(f)
    ensures LocatorFrames(a + [f] + b) == LocatorFrames(a + b)
  {
    LocatorFramesAppend(a + [f], b);
    LocatorFramesAppend(a, [f]);
    LocatorFramesAppend(a, b);
    assert [f][..0] == [];
  }

  /** The kept frames are exactly the locator frames, in their order. */
  lemma {:induction false} LocatorFramesMembers(frames: seq<Json>)
    ensures forall f :: f in LocatorFrames(frames) <==> f in frames && IsLocatorFrame(f)
    decreases |frames|
  {
    if frames != [] {
      var front, last := frames[..|frames| - 1], frames[|frames| - 1];
      LocatorFramesMembers(front);
      assert frames == front + [last];
    }
  }

  lemma {:induction false} FlattenAppend(a: seq<Json>, b: seq<Json>)
    requires Flatten(a).Some? && Flatten(b).Some?
    ensures Flatten(a + b) == Some(Flatten(a).value + Flatten(b).value)
    decreases |b|
  {
    if b == [] {
      assert a + b == a;
      assert Flatten(a).value + Flatten(b).value == Flatten(a).value;
    } else {
      var front := b[..|b| - 1];
      assert forall i :: 0 <= i < |front| ==> front[i] == b[i];
      assert Flatten(front).Some?;
      FlattenAppend(a, front);
      assert (a + b)[..|a + b| - 1] == a + front;
      assert (a + b)[|a + b| - 1] == b[|b| - 1];
      var ports := Ports(b[|b| - 1]).value;
      assert Flatten(b) == Some(Flatten(front).value + ports);
      assert Flatten(a + b) == Some(Flatten(a).value + Flatten(front).value + ports);
      assert Flatten(a).value + Flatten(front).value + ports
          == Flatten(a).value + (Flatten(front).value + ports);
    }
  }

  /** A port is in the result exactly when it is in the port array of some kept frame. */
  lemma {:induction false} FlattenMembers(entries: seq<Json>)
    requires Flatten(entries).Some?
    ensures forall m :: m in Flatten(entries).value <==>
      exists i :: 0 <= i < |entries| && m in Ports(entries[i]).value
    decreases |entries|
  {
    if entries != [] {
      var front := entries[..|entries| - 1];
      var last := entries[|entries| - 1];
      FlattenMembers(front);
      forall m
        ensures m in Flatten(entries).value <==>
          exists i :: 0 <= i < |entries| && m in Ports(entries[i]).value
      {
        if m in Flatten(front).value {
          var i :| 0 <= i < |front| && m in Ports(front[i]).value;
          assert entries[i] == front[i];
        }
        if exists i :: 0 <= i < |entries| && m in Ports(entries[i]).value {
          var i :| 0 <= i < |entries| && m in Ports(entries[i]).value;
          if i < |front| {
            assert front[i] == entries[i];
          }
        }
      }
    }
  }

  /**
   * On success the MAC list is the in-order concatenation of the port arrays
   * of just the locator frames: a port is in it exactly when some locator
   * frame lists it.
   */
  lemma MacsContents(reply: Transport, parse: string -> Option<Json>)
    requires Macs(reply, parse).Resolved?
    ensures reply.Delivered? && Demux.Demux(parse, reply.response.body).Some?
    ensures var frames := Demux.Demux(parse, reply.response.body).value;
      var macs := Macs(reply, parse).macs;
      && NoNullFrame(frames)
      && Flatten(LocatorFrames(frames)) == Some(macs)
      && forall m :: m in macs <==>
           exists f :: f in frames && IsLocatorFrame(f) && Ports(f).Some? && m in Ports(f).value
  {
    var frames := Demux.Demux(parse, reply.response.body).value;
    PortsOfLocatorFrames(frames, Macs(reply, parse).macs);
  }

  /** The flattened ports of the locator frames are exactly the ports some locator frame lists. */
  lemma PortsOfLocatorFrames(frames: seq<Json>, macs: seq<Json>)
    requires Flatten(LocatorFrames(frames)) == Some(macs)
    ensures forall m :: m in macs <==>
      exists f :: f in frames && IsLocatorFrame(f) && Ports(f).Some? && m in Ports(f).value
  {
    var entries := LocatorFrames(frames);
    FlattenMembers(entries);
    LocatorFramesMembers(frames);
    forall m | m in macs
      ensures exists f :: f in frames && IsLocatorFrame(f) && Ports(f).Some? && m in Ports(f).value
    {
      var i :| 0 <= i < |entries| && m in Ports(entries[i]).value;
      assert entries[i] in entries;
    }
    forall m, f | f in frames && IsLocatorFrame(f) && Ports(f).Some? && m in Ports(f).value
      ensures m in macs
    {
      assert f in entries;
      var i :| 0 <= i < |entries| && entries[i] == f;
    }
  }

  /** One locator frame with ports [m1, m2] and one frame of another type give exactly [m1, m2]. */
  lemma TwoFrames(m1: Json, m2: Json, other: Json)
    requires other != JNull && !IsLocatorFrame(other)
    ensures var locator := JObj(map["type" := JStr(LocatorType),
                                    "response" := JObj(map["ovResponseObject" := JArr([m1, m2])])]);
      && NoNullFrame([locator, other])
      && LocatorFrames([locator, other]) == [locator]
      && Flatten(LocatorFrames([locator, other])) == Some([m1, m2])
  {
    var locator := JObj(map["type" := JStr(LocatorType),
                            "response" := JObj(map["ovResponseObject" := JArr([m1, m2])])]);
    assert IsLocatorFrame(locator);
    assert [locator, other][..1] == [locator];
    assert [locator][..0] == [];
    assert LocatorFrames([locator]) == [locator];
    assert LocatorFrames([locator, other]) == [locator];
    assert Member(locator, "response") == Success(Some(JObj(map["ovResponseObject" := JArr([m1, m2])])));
    assert Ports(locator) == Some([m1, m2]);
    var kept: seq<Json> := [locator];
    assert Flatten(kept[..0]) == Some([]);
    assert [] + [m1, m2] == [m1, m2];
    assert Flatten(kept) == Some([m1, m2]);
  }
}
