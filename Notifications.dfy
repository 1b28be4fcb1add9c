/**
 * The notification fetch of `OV.getNotificationsWithRetry`: one attempt cuts
 * the response into frames, takes `response.trapData` of the first frame,
 * rejects a value of length 0 with "No notifications" and sorts one of
 * length two or more in place by `instanceId`; around the attempt sits
 * `retry(3)`, so at most four attempts are observed.
 */
module Notifications {
  import opened Wrappers
  import opened Json
  import opened Http
  import Demux
  import Session

  /** The number of retries after the first attempt (`retry(3)`). */
  const Retries: nat := 3

  const AlarmsPath := "/api/notifications/alarms"

  /** The query `new OV_Notifications(ip, 100)`: the 100 latest unacknowledged traps of the given addresses. */
  function NotificationsQuery(ip: Json): (q: Json)
    ensures q.JObj? && "ips" in q.fields && "count" in q.fields
    ensures q.fields["ips"] == ip && q.fields["count"] == JNum(100)
  {
    JObj(map[
      "ack" := JStr("FALSE"), "apGroups" := JNull, "count" := JNum(100), "filterBy" := JStr("IP"),
      "ips" := ip, "mapIds" := JNull, "name" := JNull, "request" := JNull, "sessionKey" := JNum(0),
      "severities" := JNull, "timeRange" := JNull, "type" := JStr("GetTrapDataRequestObject"),
      "uniqueRequestId" := JNum(0)])
  }

  /**
   * `trap.instanceId` as the comparator's subtraction converts it: the read
   * throws on a null trap, an absent key is NaN, and a present one goes
   * through ToNumber.
   */
  function Key(trap: Json): (r: Result<Num, Error>)
    ensures r.Failure? ==> r.error == TypeError
    ensures trap == JNull ==> r.Failure?
    ensures trap != JNull && !(trap.JObj? && "instanceId" in trap.fields) ==> r == Success(NaN)
    ensures trap.JObj? && "instanceId" in trap.fields ==> r == ToNumber(trap.fields["instanceId"])
  {
    match Member(trap, "instanceId")
    case Failure(e) => Failure(e)
    case Success(None) => Success(NaN)
    case Success(Some(id)) => ToNumber(id)
  }

  /** The sort key of a trap: its key when that is a number, and 0 otherwise. */
  function InstanceId(trap: Json): int
  {
    match Key(trap)
    case Success(Int(n)) => n
    case _ => 0
  }

  // ---------------------------------------------------------------------
  // The stable sort, for any integer key of the traps; the fetch sorts by
  // InstanceId.
  // ---------------------------------------------------------------------

  /** The keys are non-decreasing along s. */
  predicate SortedById(key: Json -> int, s: seq<Json>)
  {
    forall i, j :: 0 <= i < j < |s| ==> key(s[i]) <= key(s[j])
  }

  /** The traps of s whose key is k, in their order in s. */
  function WithId(key: Json -> int, s: seq<Json>, k: int): seq<Json>
  {
    if s == [] then []
    else WithId(key, s[..|s| - 1], k) + (if key(s[|s| - 1]) == k then [s[|s| - 1]] else [])
  }

  /** Stable insertion: t goes after every trap whose key is not larger than its own. */
  function Insert(key: Json -> int, s: seq<Json>, t: Json): (r: seq<Json>)
    ensures |r| == |s| + 1
    decreases |s|
  {
    if s == [] || key(s[|s| - 1]) <= key(t) then s + [t]
    else Insert(key, s[..|s| - 1], t) + [s[|s| - 1]]
  }

  /** The stable sort by key, as `traps.sort((a, b) => a.instanceId - b.instanceId)` is with numeric keys. */
  function SortById(key: Json -> int, s: seq<Json>): (r: seq<Json>)
    ensures |r| == |s|
  {
    if s == [] then [] else Insert(key, SortById(key, s[..|s| - 1]), s[|s| - 1])
  }

  // ---------------------------------------------------------------------
  // Insertion, and hence the sort, permutes, orders and keeps ties in order.
  // ---------------------------------------------------------------------

  lemma {:induction false} InsertPermutes(key: Json -> int, s: seq<Json>, t: Json)
    ensures multiset(Insert(key, s, t)) == multiset(s) + multiset{t}
    decreases |s|
  {
    if s == [] || key(s[|s| - 1]) <= key(t) {
    } else {
      var front, last := s[..|s| - 1], s[|s| - 1];
      InsertPermutes(key, front, t);
      assert s == front + [last];
    }
  }

  /** Every key in s is at most b. */
  predicate KeysAtMost(key: Json -> int, s: seq<Json>, b: int)
  {
    forall i :: 0 <= i < |s| ==> key(s[i]) <= b
  }

  lemma {:induction false} InsertKeysAtMost(key: Json -> int, s: seq<Json>, t: Json, b: int)
    requires KeysAtMost(key, s, b) && key(t) <= b
    ensures KeysAtMost(key, Insert(key, s, t), b)
    decreases |s|
  {
    if s == [] || key(s[|s| - 1]) <= key(t) {
      assert Insert(key, s, t) == s + [t];
    } else {
      var front, last := s[..|s| - 1], s[|s| - 1];
      assert KeysAtMost(key, front, b);
      InsertKeysAtMost(key, front, t, b);
      assert Insert(key, s, t) == Insert(key, front, t) + [last];
    }
  }

  lemma {:induction false} InsertSorted(key: Json -> int, s: seq<Json>, t: Json)
    requires SortedById(key, s)
    ensures SortedById(key, Insert(key, s, t))
    decreases |s|
  {
    if s == [] || key(s[|s| - 1]) <= key(t) {
      assert Insert(key, s, t) == s + [t];
    } else {
      var front, last := s[..|s| - 1], s[|s| - 1];
      var r := Insert(key, front, t);
      assert Insert(key, s, t) == r + [last];
      assert SortedById(key, front);
      InsertSorted(key, front, t);
      assert KeysAtMost(key, front, key(last));
      InsertKeysAtMost(key, front, t, key(last));
      SortedSnoc(key, r, last);
    }
  }

  lemma SortedSnoc(key: Json -> int, r: seq<Json>, last: Json)
    requires SortedById(key, r) && KeysAtMost(key, r, key(last))
    ensures SortedById(key, r + [last])
  {
    forall i, j | 0 <= i < j < |r| + 1
      ensures key((r + [last])[i]) <= key((r + [last])[j])
    {
      if j == |r| {
        assert (r + [last])[i] == r[i];
      } else {
        assert (r + [last])[i] == r[i] && (r + [last])[j] == r[j];
      }
    }
  }

  lemma {:induction false} WithIdAppend(key: Json -> int, a: seq<Json>, b: seq<Json>, k: int)
    ensures WithId(key, a + b, k) == WithId(key, a, k) + WithId(key, b, k)
    decreases |b|
  {
    if b == [] {
      assert a + b == a;
    } else {
      var front, last := b[..|b| - 1], b[|b| - 1];
      WithIdAppend(key, a, front, k);
      assert (a + b)[..|a + b| - 1] == a + front;
    }
  }

  lemma WithIdSingle(key: Json -> int, t: Json, k: int)
    ensures WithId(key, [t], k) == if key(t) == k then [t] else []
  {
    assert [t][..0] == [];
  }

  lemma {:induction false} InsertStable(key: Json -> int, s: seq<Json>, t: Json, k: int)
    ensures WithId(key, Insert(key, s, t), k) == WithId(key, s, k) + (if key(t) == k then [t] else [])
    decreases |s|
  {
    if s == [] || key(s[|s| - 1]) <= key(t) {
      assert Insert(key, s, t) == s + [t];
      WithIdSnoc(key, s, t, k);
    } else {
      var front, last := s[..|s| - 1], s[|s| - 1];
      var r := Insert(key, front, t);
      assert Insert(key, s, t) == r + [last];
      assert s == front + [last];
      InsertStable(key, front, t, k);
      WithIdSnoc(key, r, last, k);
      WithIdSnoc(key, front, last, k);
      var w := WithId(key, front, k);
      if key(t) == k {
        assert key(last) != k;
        assert w + [t] + [] == w + [] + [t];
      } else if key(last) == k {
        assert w + [] + [last] == w + [last] + [];
      } else {
        assert w + [] + [] == w + [] + [];
      }
    }
  }

  lemma WithIdSnoc(key: Json -> int, s: seq<Json>, t: Json, k: int)
    ensures WithId(key, s + [t], k) == WithId(key, s, k) + (if key(t) == k then [t] else [])
  {
    assert (s + [t])[..|s|] == s;
  }

  /** The sort returns a permutation of the traps. */
  lemma {:induction false} SortPermutes(key: Json -> int, s: seq<Json>)
    ensures multiset(SortById(key, s)) == multiset(s)
    decreases |s|
  {
    if s != [] {
      var front, last := s[..|s| - 1], s[|s| - 1];
      SortPermutes(key, front);
      InsertPermutes(key, SortById(key, front), last);
      assert s == front + [last];
    }
  }

  /** The sort orders the traps by non-decreasing key. */
  lemma {:induction false} SortSorted(key: Json -> int, s: seq<Json>)
    ensures SortedById(key, SortById(key, s))
    decreases |s|
  {
    if s != [] {
      SortSorted(key, s[..|s| - 1]);
      InsertSorted(key, SortById(key, s[..|s| - 1]), s[|s| - 1]);
    }
  }

  /** The sort is stable: traps with the same key keep their arrival order. */
  lemma {:induction false} SortStable(key: Json -> int, s: seq<Json>, k: int)
    ensures WithId(key, SortById(key, s), k) == WithId(key, s, k)
    decreases |s|
  {
    if s != [] {
      var front, last := s[..|s| - 1], s[|s| - 1];
      SortStable(key, front, k);
      InsertStable(key, SortById(key, front), last, k);
    }
  }

  lemma {:induction false} WithIdMembers(key: Json -> int, s: seq<Json>, k: int)
    ensures forall x :: x in WithId(key, s, k) ==> x in s && key(x) == k
    decreases |s|
  {
    if s != [] {
      WithIdMembers(key, s[..|s| - 1], k);
      forall x | x in s[..|s| - 1]
        ensures x in s
      {
        var i :| 0 <= i < |s| - 1 && s[..|s| - 1][i] == x;
        assert s[i] == x;
      }
    }
  }

  lemma WithIdLast(key: Json -> int, s: seq<Json>)
    requires s != []
    ensures WithId(key, s, key(s[|s| - 1])) != []
  {
  }

  lemma WithIdDropLast(key: Json -> int, s: seq<Json>, k: int)
    requires s != []
    ensures WithId(key, s, k) == WithId(key, s[..|s| - 1], k) + (if key(s[|s| - 1]) == k then [s[|s| - 1]] else [])
  {
  }

  /** In a sorted list, a key that occurs is at most the key of the last trap. */
  lemma KeyBound(key: Json -> int, s: seq<Json>, k: int)
    requires SortedById(key, s)
    requires WithId(key, s, k) != []
    ensures s != [] && k <= key(s[|s| - 1])
  {
    WithIdMembers(key, s, k);
    var w := WithId(key, s, k);
    assert w[0] in w;
    var i :| 0 <= i < |s| && s[i] == w[0];
    if i < |s| - 1 {
      assert key(s[i]) <= key(s[|s| - 1]);
    }
  }

  lemma SnocInjective(x: seq<Json>, a: Json, y: seq<Json>, b: Json)
    requires x + [a] == y + [b]
    ensures x == y && a == b
  {
    assert |x| == |y|;
    assert x == (x + [a])[..|x|];
    assert y == (y + [b])[..|y|];
  }

  /**
   * Two orderings agree when both are sorted by key and keep the same
   * order among equal keys; so every stable sort, whatever algorithm a
   * JavaScript engine uses, returns SortById.
   */
  lemma {:induction false} StableSortUnique(key: Json -> int, r: seq<Json>, q: seq<Json>)
    requires SortedById(key, r) && SortedById(key, q)
    requires forall k :: WithId(key, r, k) == WithId(key, q, k)
    ensures r == q
    decreases |r| + |q|
  {
    AllEmptyMeansEmpty(key, r);
    AllEmptyMeansEmpty(key, q);
    if r != [] && q != [] {
      var r', q' := r[..|r| - 1], q[..|q| - 1];
      LastsAgree(key, r, q, r', q');
      SortedDropLast(key, r);
      SortedDropLast(key, q);
      StableSortUnique(key, r', q');
      assert r == r' + [r[|r| - 1]] && q == q' + [q[|q| - 1]];
    }
  }

  /** A list with no trap under any key is empty. */
  lemma AllEmptyMeansEmpty(key: Json -> int, s: seq<Json>)
    ensures (forall k :: WithId(key, s, k) == []) ==> s == []
  {
    if s != [] {
      WithIdLast(key, s);
    }
  }

  lemma SortedDropLast(key: Json -> int, s: seq<Json>)
    requires s != [] && SortedById(key, s)
    ensures SortedById(key, s[..|s| - 1])
  {
    var front := s[..|s| - 1];
    forall i, j | 0 <= i < j < |front|
      ensures key(front[i]) <= key(front[j])
    {
      assert front[i] == s[i] && front[j] == s[j];
    }
  }

  /** Two sorted lists with the same traps per key end in the same trap and agree before it. */
  lemma LastsAgree(key: Json -> int, r: seq<Json>, q: seq<Json>, r': seq<Json>, q': seq<Json>)
    requires r != [] && q != [] && r' == r[..|r| - 1] && q' == q[..|q| - 1]
    requires SortedById(key, r) && SortedById(key, q)
    requires forall k :: WithId(key, r, k) == WithId(key, q, k)
    ensures r[|r| - 1] == q[|q| - 1]
    ensures forall k :: WithId(key, r', k) == WithId(key, q', k)
  {
    var a, b := r[|r| - 1], q[|q| - 1];
    var ka := SameLastKey(key, r, q);
    WithIdDropLast(key, r, ka);
    WithIdDropLast(key, q, ka);
    SnocInjective(WithId(key, r', ka), a, WithId(key, q', ka), b);
    forall k
      ensures WithId(key, r', k) == WithId(key, q', k)
    {
      assert WithId(key, r, k) == WithId(key, q, k);
      WithIdDropLast(key, r, k);
      WithIdDropLast(key, q, k);
      if k != ka {
        assert WithId(key, r', k) + [] == WithId(key, r', k);
        assert WithId(key, q', k) + [] == WithId(key, q', k);
      }
    }
  }

  /** Two sorted lists with the same traps per key end in the same key. */
  lemma SameLastKey(key: Json -> int, r: seq<Json>, q: seq<Json>) returns (last: int)
    requires r != [] && q != []
    requires SortedById(key, r) && SortedById(key, q)
    requires forall k :: WithId(key, r, k) == WithId(key, q, k)
    ensures last == key(r[|r| - 1]) == key(q[|q| - 1])
  {
    var ka, kb := key(r[|r| - 1]), key(q[|q| - 1]);
    WithIdLast(key, r);
    WithIdLast(key, q);
    assert WithId(key, q, ka) == WithId(key, r, ka);
    assert WithId(key, r, kb) == WithId(key, q, kb);
    KeyBound(key, q, ka);
    KeyBound(key, r, kb);
    last := ka;
  }

  /** Any stable sort of the traps by key is SortById of them. */
  lemma StableSortIsSortById(key: Json -> int, s: seq<Json>, r: seq<Json>)
    requires SortedById(key, r)
    requires forall k :: WithId(key, r, k) == WithId(key, s, k)
    ensures r == SortById(key, s)
  {
    SortSorted(key, s);
    forall k
      ensures WithId(key, r, k) == WithId(key, SortById(key, s), k)
    {
      SortStable(key, s, k);
    }
    StableSortUnique(key, r, SortById(key, s));
  }

  // ---------------------------------------------------------------------
  // The in-place sort `traps.sort(...)`.
  // ---------------------------------------------------------------------

  /** Where the scan from the right stops is where Insert puts t. */
  lemma {:induction false} InsertAt(key: Json -> int, s: seq<Json>, t: Json, j: nat)
    requires j <= |s|
    requires forall k :: j <= k < |s| ==> key(s[k]) > key(t)
    requires j == 0 || key(s[j - 1]) <= key(t)
    ensures Insert(key, s, t) == s[..j] + [t] + s[j..]
    decreases |s|
  {
    if j == |s| {
      assert s[j..] == [] && s[..j] == s;
    } else {
      var front := s[..|s| - 1];
      InsertAt(key, front, t, j);
      assert front[..j] == s[..j];
      assert front[j..] + [s[|s| - 1]] == s[j..];
    }
  }

  /** Shifts the keys before a[i] that are larger than its own one place right; j is the gap left. */
  method MakeRoom(key: Json -> int, a: array<Json>, i: nat) returns (j: nat)
    requires i < a.Length
    modifies a
    ensures j <= i
    ensures forall k :: 0 <= k < j ==> a[k] == old(a[k])
    ensures forall k :: j < k <= i ==> a[k] == old(a[k - 1])
    ensures forall k :: i < k < a.Length ==> a[k] == old(a[k])
    ensures forall k :: j <= k < i ==> key(old(a[k])) > key(old(a[i]))
    ensures j == 0 || key(old(a[j - 1])) <= key(old(a[i]))
  {
    var pivot := key(a[i]);
    j := i;
    while j > 0 && key(a[j - 1]) > pivot
      invariant 0 <= j <= i
      invariant forall k :: 0 <= k < j ==> a[k] == old(a[k])
      invariant forall k :: j < k <= i ==> a[k] == old(a[k - 1])
      invariant forall k :: i < k < a.Length ==> a[k] == old(a[k])
      invariant forall k :: j <= k < i ==> key(old(a[k])) > pivot
    {
      a[j] := a[j - 1];
      j := j - 1;
    }
  }

  /** One pass of the insertion sort: a[i] moves left past every larger key before it. */
  method InsertStep(key: Json -> int, a: array<Json>, i: nat)
    requires i < a.Length
    modifies a
    ensures a[..i + 1] == Insert(key, old(a[..i]), old(a[i]))
    ensures a[i + 1..] == old(a[i + 1..])
  {
    var t := a[i];
    ghost var sorted := a[..i];
    var j := MakeRoom(key, a, i);
    a[j] := t;
    InsertAt(key, sorted, t, j);
    ghost var inserted := sorted[..j] + [t] + sorted[j..];
    assert forall k :: 0 <= k <= i ==> a[k] == inserted[k];
    assert a[..i + 1] == inserted;
  }

  /** Sorts the traps in place, stably, by key. */
  method SortTraps(key: Json -> int, a: array<Json>)
    modifies a
    ensures a[..] == SortById(key, old(a[..]))
  {
    ghost var input := a[..];
    for i := 0 to a.Length
      invariant a[..i] == SortById(key, input[..i])
      invariant a[i..] == input[i..]
    {
      assert a[i] == input[i];
      ghost var rest := a[i + 1..];
      assert rest == input[i + 1..];
      InsertStep(key, a, i);
      SortByIdStep(key, input, i);
    }
    assert input[..a.Length] == input;
  }

  lemma SortByIdStep(key: Json -> int, s: seq<Json>, i: nat)
    requires i < |s|
    ensures SortById(key, s[..i + 1]) == Insert(key, SortById(key, s[..i]), s[i])
  {
    assert s[..i + 1][..i] == s[..i];
  }

  // ---------------------------------------------------------------------
  // One attempt.
  // ---------------------------------------------------------------------

  /**
   * `result2JSON(body)[0].response.trapData` inside the `try`: a body that
   * does not parse, a null first frame and an absent or null `response` all
   * end in the `catch`, "JSON Error". An absent `trapData` is `undefined` (None).
   */
  function TrapData(parse: string -> Option<Json>, body: string): (r: Result<Option<Json>, Error>)
    ensures var frames := Demux.Demux(parse, body);
      && (r.Success? <==>
            && frames.Some? && frames.value[0].JObj? && "response" in frames.value[0].fields
            && frames.value[0].fields["response"] != JNull)
      && (r.Failure? ==> r.error == JsonError)
      && (r.Success? ==>
            var response := frames.value[0].fields["response"];
            && (r.value.Some? <==> response.JObj? && "trapData" in response.fields)
            && (r.value.Some? ==> r.value.value == response.fields["trapData"]))
  {
    match Demux.Demux(parse, body)
    case None => Failure(JsonError)
    case Some(frames) =>
      match Member(frames[0], "response")
      case Failure(_) => Failure(JsonError)
      case Success(response) =>
        match Read(response, "trapData")
        case Failure(_) => Failure(JsonError)
        case Success(traps) => Success(traps)
  }

  /**
   * `traps.length`: the element count of an array, the length of a string,
   * the `length` field of an object, and `undefined` (None) for a number or
   * a boolean; the read throws on `null` and `undefined`.
   */
  function Length(traps: Option<Json>): (r: Result<Option<Json>, Error>)
    ensures r.Failure? <==> traps.None? || traps.value == JNull
    ensures r.Failure? ==> r.error == TypeError
  {
    match traps
    case None => Failure(TypeError)
    case Some(JArr(items)) => Success(Some(JNum(|items|)))
    case Some(JStr(s)) => Success(Some(JNum(|s|)))
    case Some(v) => Member(v, "length")
  }

  /** `length > 1`: the length goes through ToNumber, and `undefined` and NaN compare false. */
  function MoreThanOne(length: Option<Json>): (r: Result<bool, Error>)
    ensures r.Failure? ==> r.error == TypeError
    ensures length.Some? && length.value.JNum? ==> r == Success(length.value.n > 1)
  {
    match length
    case None => Success(false)
    case Some(v) =>
      match ToNumber(v)
      case Failure(e) => Failure(e)
      case Success(Int(n)) => Success(n > 1)
      case Success(NaN) => Success(false)
  }

  /** Every trap's key can be read, so the comparator throws on none of them. */
  predicate KeysReadable(traps: seq<Json>)
  {
    forall i :: 0 <= i < |traps| ==> Key(traps[i]).Success?
  }

  /** Every key is a number, so the comparator is the numeric order of the keys. */
  predicate KeysNumeric(traps: seq<Json>)
  {
    forall i :: 0 <= i < |traps| ==> Key(traps[i]).Success? && Key(traps[i]).value.Int?
  }

  /**
   * `traps.sort((a, b) => a.instanceId - b.instanceId)` on two or more
   * traps: every trap takes part in some comparison, so one unreadable key
   * throws; numeric keys give the stable sort; with a NaN key the arrival
   * order is kept.
   */
  function SortTrapList(traps: seq<Json>): (r: Result<seq<Json>, Error>)
    ensures r.Failure? <==> !KeysReadable(traps)
    ensures r.Failure? ==> r.error == TypeError
  {
    if !KeysReadable(traps) then Failure(TypeError)
    else if KeysNumeric(traps) then Success(SortById(InstanceId, traps))
    else Success(traps)
  }

  /**
   * The rest of the `try` block for the value read from `trapData`: it
   * rejects with "No notifications" when the length is 0, sorts when the
   * length is more than 1 (`sort` exists only on arrays) and resolves with
   * the value; an exception is Failure(TypeError).
   */
  function Settle(traps: Option<Json>): Result<Json, Error>
  {
    match Length(traps)
    case Failure(e) => Failure(e)
    case Success(length) =>
      if length == Some(JNum(0)) then Failure(NoNotifications)
      else
        match MoreThanOne(length)
        case Failure(e) => Failure(e)
        case Success(more) =>
          if !more then Success(traps.value)
          else if !traps.value.JArr? then Failure(TypeError)
          else
            match SortTrapList(traps.value.items)
            case Failure(e) => Failure(e)
            case Success(sorted) => Success(JArr(sorted))
  }

  /** The outcome of one attempt: the value resolved, or why the attempt was rejected. */
  function Attempt(reply: Transport, parse: string -> Option<Json>): Result<Json, Error>
  {
    match reply
    case Failed(cause) => Failure(TransportError(cause))
    case Delivered(response) =>
      match TrapData(parse, response.body)
      case Failure(e) => Failure(e)
      case Success(traps) =>
        var r := Settle(traps);
        if r == Failure(TypeError) then Failure(JsonError) else r
  }

  /** The values whose `length` is strictly 0. */
  predicate EmptyLength(traps: Json)
  {
    || traps == JArr([]) || traps == JStr("")
    || (traps.JObj? && "length" in traps.fields && traps.fields["length"] == JNum(0))
  }

  /**
   * An attempt rejects with the transport's error, with "JSON Error" when
   * the trap data cannot be read, and with "No notifications" exactly when
   * the trap data has length 0; it never rejects with anything else.
   */
  lemma AttemptOutcome(reply: Transport, parse: string -> Option<Json>)
    ensures reply.Failed? ==> Attempt(reply, parse) == Failure(TransportError(reply.cause))
    ensures reply.Delivered? && TrapData(parse, reply.response.body).Failure? ==>
      Attempt(reply, parse) == Failure(JsonError)
    ensures reply.Delivered? ==>
      var traps := TrapData(parse, reply.response.body);
      (Attempt(reply, parse) == Failure(NoNotifications) <==>
         traps.Success? && traps.value.Some? && EmptyLength(traps.value.value))
    ensures Attempt(reply, parse).Failure? ==>
      Attempt(reply, parse).error in {JsonError, NoNotifications}
      || (reply.Failed? && Attempt(reply, parse).error == TransportError(reply.cause))
    ensures reply.Delivered? && TrapData(parse, reply.response.body).Success? ==>
      var traps := TrapData(parse, reply.response.body).value;
      (traps.None? || traps.value == JNull) ==> Attempt(reply, parse) == Failure(JsonError)
  {
    if reply.Delivered? && TrapData(parse, reply.response.body).Success? {
      var traps := TrapData(parse, reply.response.body).value;
      if traps.Some? && traps.value.JObj? && "length" in traps.value.fields {
        var length := traps.value.fields["length"];
        assert Length(traps) == Success(Some(length));
      }
    }
  }

  /**
   * Trap data that is an array of two or more traps: one unreadable key
   * rejects with "JSON Error"; numeric keys give the traps sorted by key, a
   * permutation that keeps equal keys in arrival order, and SortById; a
   * NaN key keeps the arrival order.
   */
  lemma AttemptSortsTraps(reply: Transport, parse: string -> Option<Json>, traps: seq<Json>)
    requires reply.Delivered? && TrapData(parse, reply.response.body) == Success(Some(JArr(traps)))
    requires |traps| >= 2
    ensures !KeysReadable(traps) ==> Attempt(reply, parse) == Failure(JsonError)
    ensures KeysReadable(traps) && !KeysNumeric(traps) ==> Attempt(reply, parse) == Success(JArr(traps))
    ensures KeysNumeric(traps) ==>
      && Attempt(reply, parse).Success? && Attempt(reply, parse).value.JArr?
      && var r := Attempt(reply, parse).value.items;
      && r == SortById(InstanceId, traps)
      && multiset(r) == multiset(traps)
      && KeysNumeric(r)
      && (forall i, j :: 0 <= i < j < |r| ==> Key(r[i]).value.i <= Key(r[j]).value.i)
      && (forall k :: WithId(InstanceId, r, k) == WithId(InstanceId, traps, k))
  {
    SettleArray(traps);
    if KeysNumeric(traps) {
      SortByKey(traps);
    }
  }

  lemma SettleArray(traps: seq<Json>)
    requires |traps| >= 2
    ensures Settle(Some(JArr(traps))) ==
      if !KeysReadable(traps) then Failure(TypeError)
      else if KeysNumeric(traps) then Success(JArr(SortById(InstanceId, traps)))
      else Success(JArr(traps))
  {
    assert Length(Some(JArr(traps))) == Success(Some(JNum(|traps|)));
  }

  /** With numeric keys, SortById orders the traps by key, permutes them and keeps ties in order. */
  lemma SortByKey(traps: seq<Json>)
    requires KeysNumeric(traps)
    ensures var r := SortById(InstanceId, traps);
      && multiset(r) == multiset(traps)
      && KeysNumeric(r)
      && (forall i, j :: 0 <= i < j < |r| ==> Key(r[i]).value.i <= Key(r[j]).value.i)
      && (forall k :: WithId(InstanceId, r, k) == WithId(InstanceId, traps, k))
  {
    var r := SortById(InstanceId, traps);
    SortSorted(InstanceId, traps);
    SortPermutes(InstanceId, traps);
    NumericKeysSorted(traps, r);
    forall k
      ensures WithId(InstanceId, r, k) == WithId(InstanceId, traps, k)
    {
      SortStable(InstanceId, traps, k);
    }
  }

  /** A sorted permutation of traps with numeric keys is ordered by those keys. */
  lemma NumericKeysSorted(traps: seq<Json>, r: seq<Json>)
    requires KeysNumeric(traps) && multiset(r) == multiset(traps) && SortedById(InstanceId, r)
    ensures forall i :: 0 <= i < |r| ==> Key(r[i]).Success? && Key(r[i]).value.Int?
    ensures forall i, j :: 0 <= i < j < |r| ==> Key(r[i]).value.i <= Key(r[j]).value.i
  {
    forall i | 0 <= i < |r|
      ensures Key(r[i]).Success? && Key(r[i]).value.Int? && InstanceId(r[i]) == Key(r[i]).value.i
    {
      assert r[i] in multiset(traps);
      var k :| 0 <= k < |traps| && traps[k] == r[i];
    }
  }

  /**
   * Trap data that is not sorted is resolved unchanged: a single trap
   * (whatever it is), a number, a boolean, a one-character string, and an
   * object whose `length` is absent, or is not the number 0 and converts to
   * NaN or to at most 1; a longer string or an object whose `length`
   * converts to more than 1 has no `sort` and rejects with "JSON Error".
   */
  lemma AttemptUnsorted(reply: Transport, parse: string -> Option<Json>, traps: Json)
    requires reply.Delivered? && TrapData(parse, reply.response.body) == Success(Some(traps))
    ensures traps.JArr? && |traps.items| == 1 ==> Attempt(reply, parse) == Success(traps)
    ensures traps.JNum? || traps.JBool? ==> Attempt(reply, parse) == Success(traps)
    ensures traps.JStr? && |traps.s| == 1 ==> Attempt(reply, parse) == Success(traps)
    ensures traps.JStr? && |traps.s| > 1 ==> Attempt(reply, parse) == Failure(JsonError)
    ensures traps.JObj? && "length" !in traps.fields ==> Attempt(reply, parse) == Success(traps)
    ensures traps.JObj? && "length" in traps.fields && traps.fields["length"] != JNum(0) ==>
      var n := ToNumber(traps.fields["length"]);
      && (n.Success? && (n.value.NaN? || n.value.i <= 1) ==> Attempt(reply, parse) == Success(traps))
      && (!(n.Success? && (n.value.NaN? || n.value.i <= 1)) ==> Attempt(reply, parse) == Failure(JsonError))
  {
    SettleScalar(traps);
    if traps.JObj? && "length" in traps.fields && traps.fields["length"] != JNum(0) {
      SettleObject(traps.fields);
    }
  }

  /** Values that are not sorted: a one-element array, a number, a boolean, a string and an object without `length`. */
  lemma SettleScalar(traps: Json)
    ensures traps.JArr? && |traps.items| == 1 ==> Settle(Some(traps)) == Success(traps)
    ensures traps.JNum? || traps.JBool? ==> Settle(Some(traps)) == Success(traps)
    ensures traps.JStr? && |traps.s| == 1 ==> Settle(Some(traps)) == Success(traps)
    ensures traps.JStr? && |traps.s| > 1 ==> Settle(Some(traps)) == Failure(TypeError)
    ensures traps.JObj? && "length" !in traps.fields ==> Settle(Some(traps)) == Success(traps)
  {
  }

  /** An object with a nonzero `length` field resolves when ToNumber of it is at most 1 or NaN, and throws otherwise. */
  lemma SettleObject(m: map<string, Json>)
    requires "length" in m && m["length"] != JNum(0)
    ensures var n := ToNumber(m["length"]);
      Settle(Some(JObj(m))) ==
        if n.Success? && (n.value.NaN? || n.value.i <= 1) then Success(JObj(m)) else Failure(TypeError)
  {
    var length := m["length"];
    assert Length(Some(JObj(m))) == Success(Some(length));
    var n := ToNumber(length);
    if n.Success? && (n.value.NaN? || n.value.i <= 1) {
      assert MoreThanOne(Some(length)) == Success(false);
    } else if n.Success? {
      assert MoreThanOne(Some(length)) == Success(true);
    } else {
      assert MoreThanOne(Some(length)) == Failure(TypeError);
    }
  }

  /** One attempt as the request callback runs it. */
  method NotificationAttempt(reply: Transport, parse: string -> Option<Json>) returns (r: Result<Json, Error>)
    ensures r == Attempt(reply, parse)
  {
    if reply.Failed? {
      return Failure(TransportError(reply.cause));
    }
    var frames := Demux.Result2Json(reply.response.body, parse);
    if frames.None? {
      return Failure(JsonError);
    }
    var result := Member(frames.value[0], "response");
    if result.Failure? {
      return Failure(JsonError);
    }
    var trapData := Read(result.value, "trapData");
    if trapData.Failure? {
      return Failure(JsonError);
    }
    var traps := trapData.value;
    var length := Length(traps);
    if length.Failure? {
      return Failure(JsonError);
    }
    if length.value == Some(JNum(0)) {
      return Failure(NoNotifications);
    }
    var more := MoreThanOne(length.value);
    if more.Failure? {
      return Failure(JsonError);
    }
    if more.value {
      if !traps.value.JArr? || !KeysReadable(traps.value.items) {
        return Failure(JsonError);
      }
      var items := traps.value.items;
      if KeysNumeric(items) {
        var a := new Json[|items|](i requires 0 <= i < |items| => items[i]);
        assert a[..] == items;
        SortTraps(InstanceId, a);
        items := a[..];
      }
      return Success(JArr(items));
    }
    return Success(traps.value);
  }

  // ---------------------------------------------------------------------
  // retry(3): at most 1 + Retries attempts, stopping at the first success.
  // ---------------------------------------------------------------------

  /** What each of the 1 + Retries attempts would report for the outcome it observes. */
  function Observed(outcomes: nat -> Transport, parse: string -> Option<Json>)
    : (rs: seq<Result<Json, Error>>)
    ensures |rs| == Retries + 1
    ensures forall k :: 0 <= k < |rs| ==> rs[k] == Attempt(outcomes(k), parse)
  {
    seq(Retries + 1, k requires 0 <= k => Attempt(outcomes(k), parse))
  }

  /** The result and the number of attempts made, starting with attempt `from`. */
  function Poll(rs: seq<Result<Json, Error>>, from: nat): (Result<Json, Error>, nat)
    requires from < |rs|
    decreases |rs| - from
  {
    if rs[from].Success? || from == |rs| - 1 then (rs[from], from + 1) else Poll(rs, from + 1)
  }

  lemma {:induction false} PollFrom(rs: seq<Result<Json, Error>>, from: nat)
    requires from < |rs|
    ensures from + 1 <= Poll(rs, from).1 <= |rs|
    ensures Poll(rs, from).0 == rs[Poll(rs, from).1 - 1]
    ensures forall k :: from <= k < Poll(rs, from).1 - 1 ==> rs[k].Failure?
    ensures Poll(rs, from).0.Failure? ==> Poll(rs, from).1 == |rs|
    decreases |rs| - from
  {
    if !(rs[from].Success? || from == |rs| - 1) {
      PollFrom(rs, from + 1);
    }
  }

  /**
   * The poll stops at the first successful attempt and makes at most
   * 1 + Retries attempts; when every attempt fails it reports the last
   * attempt's failure.
   */
  lemma PollBounds(outcomes: nat -> Transport, parse: string -> Option<Json>)
    ensures var (r, n) := Poll(Observed(outcomes, parse), 0);
      && 1 <= n <= Retries + 1
      && r == Attempt(outcomes(n - 1), parse)
      && (forall k :: 0 <= k < n - 1 ==> Attempt(outcomes(k), parse).Failure?)
      && (r.Failure? ==> n == Retries + 1)
  {
    var rs := Observed(outcomes, parse);
    PollFrom(rs, 0);
    var n := Poll(rs, 0).1;
    forall k | 0 <= k < n - 1
      ensures Attempt(outcomes(k), parse).Failure?
    {
      assert rs[k].Failure?;
    }
  }

  /**
   * The promise is made once, before `retry` subscribes, so in the source
   * every attempt observes the same outcome: the poll returns that one
   * outcome, after one attempt on success and after four on failure.
   */
  lemma PollSameOutcome(outcomes: nat -> Transport, parse: string -> Option<Json>, once: Transport)
    requires forall k :: outcomes(k) == once
    ensures Poll(Observed(outcomes, parse), 0) ==
      (Attempt(once, parse), if Attempt(once, parse).Success? then 1 else Retries + 1)
  {
    PollBounds(outcomes, parse);
    assert outcomes(0) == once;
    var n := Poll(Observed(outcomes, parse), 0).1;
    assert outcomes(n - 1) == once;
  }

  /**
   * `getNotificationsWithRetry(ip)`: the request it posts (`stringify` is
   * `JSON.stringify`) and the result and attempt count over the outcomes its
   * attempts observe.
   */
  method GetNotificationsWithRetry(ov: Session.OV, ip: Json, stringify: Json -> string,
                                   outcomes: nat -> Transport, parse: string -> Option<Json>)
    returns (request: Request, r: Result<Json, Error>, attempts: nat)
    ensures request.verb == Post && request.url == ov.url + AlarmsPath
    ensures request.headers == ov.Headers()
    ensures request.body == Some(stringify(NotificationsQuery(ip)))
    ensures (r, attempts) == Poll(Observed(outcomes, parse), 0)
  {
    request := Request(Post, ov.url + AlarmsPath, ov.Headers(), Some(stringify(NotificationsQuery(ip))));
    r := NotificationAttempt(outcomes(0), parse);
    attempts := 1;
    while r.Failure? && attempts <= Retries
      invariant 1 <= attempts <= Retries + 1
      invariant r == Attempt(outcomes(attempts - 1), parse)
      invariant Poll(Observed(outcomes, parse), 0) ==
        if r.Success? || attempts == Retries + 1 then (r, attempts)
        else Poll(Observed(outcomes, parse), attempts)
      decreases Retries + 1 - attempts
    {
      r := NotificationAttempt(outcomes(attempts), parse);
      attempts := attempts + 1;
    }
  }
}
