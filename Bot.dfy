/** The bot around the scan: the snapshot held in the globals
    `latest_sheet_data` and `sheet_ready` (app.py:25-26), its replacement by
    `/update` and by the fetch (app.py:82-115), and the message handler that
    picks the districts out of a message and composes the reply
    (app.py:174-218). */
module Bot {
  import opened Text
  import opened Values
  import opened Scan

  /** The districts of Buriram province, in the order the handler tries them. */
  const BURIRAM_DISTRICTS: seq<string> := [
    "เมืองบุรีรัมย์", "คูเมือง", "กระสัง", "นางรอง", "หนองกี่", "ละหานทราย",
    "ประโคนชัย", "บ้านกรวด", "พุทไธสง", "ลำปลายมาศ", "สตึก", "บ้านด่าน",
    "ห้วยราช", "โนนสุวรรณ", "ปะคำ", "นาโพธิ์", "หนองหงส์", "พลับพลาชัย",
    "เฉลิมพระเกียรติ", "ชำนิ", "บ้านใหม่ไชยพจน์", "โนนดินแดง", "แคนดง",
    "ลำทะเมนชัย", "เมืองยาง", "ชุมพวง"
  ]

  /** The payload key that carries the snapshot. */
  const SHEET_KEY := "full_sheet_data"

  const ASK_FOR_HOSPITAL := "❌ กรุณาระบุโรงพยาบาลในบุรีรัมย์"
  const SYNCING := "⏳ กำลังซิงค์ข้อมูล กรุณาลองใหม่"
  const AVAILABLE_PREFIX := "✅ มีรับกลับ "
  const NOT_AVAILABLE_PREFIX := "❌ ไม่มีรอบรับกลับ "
  const FOLLOW_UP := "ล้อหมุนกี่โมงคะ"

  // ---------------------------------------------------------------------------
  // District extraction

  /** `s` is `t` with some elements left out, the rest in their order. */
  ghost predicate SubsequenceOf(s: seq<string>, t: seq<string>)
    decreases |t|
  {
    if s == [] then true
    else if t == [] then false
    else if s[0] == t[0] then SubsequenceOf(s[1..], t[1..])
    else SubsequenceOf(s, t[1..])
  }

  /** The entries of `ds` whose lowercased form occurs in `text`, in order. */
  function FilterMentioned(ds: seq<string>, text: string): (r: seq<string>)
    ensures forall d :: d in r <==> d in ds && Contains(Lower(d), text)
    ensures forall d :: multiset(r)[d] == if Contains(Lower(d), text) then multiset(ds)[d] else 0
    ensures SubsequenceOf(r, ds)
  {
    if ds == [] then []
    else
      var rest := FilterMentioned(ds[1..], text);
      assert ds == [ds[0]] + ds[1..];
      if Contains(Lower(ds[0]), text) then [ds[0]] + rest else rest
  }

  /** `[d for d in BURIRAM_DISTRICTS if d.lower() in text]` with
      `text = message.lower()`. */
  function ExtractDistricts(message: string): (r: seq<string>)
    ensures forall d :: d in r <==> d in BURIRAM_DISTRICTS && Contains(Lower(d), Lower(message))
    ensures SubsequenceOf(r, BURIRAM_DISTRICTS)
  {
    FilterMentioned(BURIRAM_DISTRICTS, Lower(message))
  }

  /** The district names are distinct, so the extraction keeps each named
      district once. */
  lemma DistrictsDistinct()
    ensures forall i, j :: 0 <= i < j < |BURIRAM_DISTRICTS| ==> BURIRAM_DISTRICTS[i] != BURIRAM_DISTRICTS[j]
  {
  }

  /** The district names hold no ASCII capitals, so `d.lower()` is `d` itself
      and the extraction compares the names as listed. */
  lemma DistrictsUnchangedByLower()
    ensures forall k | 0 <= k < |BURIRAM_DISTRICTS| :: Lower(BURIRAM_DISTRICTS[k]) == BURIRAM_DISTRICTS[k]
  {
    forall k | 0 <= k < |BURIRAM_DISTRICTS| ensures Lower(BURIRAM_DISTRICTS[k]) == BURIRAM_DISTRICTS[k] {
      var d := BURIRAM_DISTRICTS[k];
      assert forall i :: 0 <= i < |d| ==> '\U{0E00}' <= d[i] <= '\U{0E7F}';
      LowerKeepsUncased(d);
    }
  }

  // ---------------------------------------------------------------------------
  // Reply composition

  /** The reply line for district `d` given its scan result. */
  function ReplyLine(d: string, result: ScanResult): string
    requires !result.Raised?
  {
    match result
    case Round(hit) =>
      var msg := AVAILABLE_PREFIX + hit.hospital;
      var msg := if hit.partner != "" then msg + " (" + hit.partner + ")" else msg;
      if hit.note != "" then msg + " " + hit.note else msg
    case NoRound => NOT_AVAILABLE_PREFIX + d
  }

  /** The outcome of the reply loop: the scan raised for some district, or
      one line per district and whether any district had a round. */
  datatype Composition = Crashed | Composed(replies: seq<string>, hasAvailable: bool)

  /** What the reply loop yields for districts `ds` whose scans gave `rs`,
      taken in order until a scan raises. */
  function ComposeFrom(ds: seq<string>, rs: seq<ScanResult>): Composition
    requires |rs| == |ds|
    decreases |ds|
  {
    if ds == [] then Composed([], false)
    else
      var n := |ds| - 1;
      match ComposeFrom(ds[..n], rs[..n])
      case Crashed => Crashed
      case Composed(replies, hasAvailable) =>
        if rs[n].Raised? then Crashed
        else Composed(replies + [ReplyLine(ds[n], rs[n])], hasAvailable || rs[n].Round?)
  }

  /** The scan result of each district, in order. */
  function Results(sheet: Value, ds: seq<string>): seq<ScanResult> {
    seq(|ds|, k requires 0 <= k < |ds| => HasRound(sheet, ds[k]))
  }

  /** The scan result of district `k`. */
  lemma ResultAt(sheet: Value, ds: seq<string>, k: nat)
    requires k < |ds|
    ensures |Results(sheet, ds)| == |ds| && Results(sheet, ds)[k] == HasRound(sheet, ds[k])
  {
  }

  /** The scan results of all districts. */
  lemma ResultsAt(sheet: Value, ds: seq<string>)
    ensures |Results(sheet, ds)| == |ds|
    ensures forall k :: 0 <= k < |ds| ==> Results(sheet, ds)[k] == HasRound(sheet, ds[k])
  {
  }

  /** The reply loop over the snapshot `sheet`. */
  function Compose(sheet: Value, ds: seq<string>): Composition {
    ComposeFrom(ds, Results(sheet, ds))
  }

  /** One more district: the loop over `ds[..n + 1]` is the loop over
      `ds[..n]` followed by district `n`. */
  lemma ComposeExtend(ds: seq<string>, rs: seq<ScanResult>, n: nat)
    requires |rs| == |ds| && n < |ds|
    ensures ComposeFrom(ds[..n + 1], rs[..n + 1]) ==
      match ComposeFrom(ds[..n], rs[..n])
      case Crashed => Crashed
      case Composed(replies, hasAvailable) =>
        if rs[n].Raised? then Crashed
        else Composed(replies + [ReplyLine(ds[n], rs[n])], hasAvailable || rs[n].Round?)
  {
    assert ds[..n + 1][..n] == ds[..n];
    assert rs[..n + 1][..n] == rs[..n];
  }

  /** The reply loop's step, over any list of scan results: after district
      `n` the loop has either failed for good or appended that district's
      line. */
  lemma ComposeStep(ds: seq<string>, rs: seq<ScanResult>, n: nat, replies: seq<string>, hasAvailable: bool)
    requires |rs| == |ds| && n < |ds|
    requires ComposeFrom(ds[..n], rs[..n]) == Composed(replies, hasAvailable)
    ensures rs[n].Raised? ==> ComposeFrom(ds, rs).Crashed?
    ensures !rs[n].Raised? ==>
      ComposeFrom(ds[..n + 1], rs[..n + 1]) == Composed(replies + [ReplyLine(ds[n], rs[n])], hasAvailable || rs[n].Round?)
  {
    ComposeExtend(ds, rs, n);
    if rs[n].Raised? {
      CrashPersists(ds, rs, n + 1);
    }
  }

  /** Once the loop has failed on a prefix, it has failed on the whole list. */
  lemma {:induction false} CrashPersists(ds: seq<string>, rs: seq<ScanResult>, n: nat)
    requires |rs| == |ds| && n <= |ds| && ComposeFrom(ds[..n], rs[..n]).Crashed?
    ensures ComposeFrom(ds, rs).Crashed?
    decreases |ds| - n
  {
    if n < |ds| {
      assert ds[..n + 1][..n] == ds[..n];
      assert rs[..n + 1][..n] == rs[..n];
      CrashPersists(ds, rs, n + 1);
    } else {
      assert ds[..n] == ds;
      assert rs[..n] == rs;
    }
  }

  /** The reply loop fails exactly when some scan raised. */
  lemma {:induction false} ComposeCrashesIffRaised(ds: seq<string>, rs: seq<ScanResult>)
    requires |rs| == |ds|
    ensures ComposeFrom(ds, rs).Crashed? <==> exists k :: 0 <= k < |rs| && rs[k].Raised?
    decreases |ds|
  {
    if ds != [] {
      var n := |ds| - 1;
      ComposeCrashesIffRaised(ds[..n], rs[..n]);
      assert forall k :: 0 <= k < n ==> rs[..n][k] == rs[k];
    }
  }

  /** Otherwise it gives one line per district, each the line for that
      district's scan result. */
  lemma {:induction false} ComposeLines(ds: seq<string>, rs: seq<ScanResult>)
    requires |rs| == |ds| && ComposeFrom(ds, rs).Composed?
    ensures |ComposeFrom(ds, rs).replies| == |ds|
    ensures forall k :: 0 <= k < |ds| ==> !rs[k].Raised? && ComposeFrom(ds, rs).replies[k] == ReplyLine(ds[k], rs[k])
    decreases |ds|
  {
    if ds != [] {
      var n := |ds| - 1;
      var front, rfront := ds[..n], rs[..n];
      assert ComposeFrom(front, rfront).Composed?;
      ComposeLines(front, rfront);
      var replies := ComposeFrom(front, rfront).replies;
      var c := ComposeFrom(ds, rs);
      assert c.replies == replies + [ReplyLine(ds[n], rs[n])];
      forall k | 0 <= k < |ds|
        ensures !rs[k].Raised? && c.replies[k] == ReplyLine(ds[k], rs[k])
      {
        if k < n {
          assert front[k] == ds[k] && rfront[k] == rs[k];
          assert c.replies[k] == replies[k];
        }
      }
    }
  }

  /** And it reports availability exactly when some scan found a round. */
  lemma {:induction false} ComposeAvailableIffRound(ds: seq<string>, rs: seq<ScanResult>)
    requires |rs| == |ds| && ComposeFrom(ds, rs).Composed?
    ensures ComposeFrom(ds, rs).hasAvailable <==> exists k :: 0 <= k < |rs| && rs[k].Round?
    decreases |ds|
  {
    if ds != [] {
      var n := |ds| - 1;
      assert ComposeFrom(ds[..n], rs[..n]).Composed?;
      ComposeAvailableIffRound(ds[..n], rs[..n]);
      assert forall k :: 0 <= k < n ==> rs[..n][k] == rs[k];
    }
  }

  /** The loop over every district is the loop over the whole list. */
  lemma ComposeWhole(ds: seq<string>, rs: seq<ScanResult>)
    requires |rs| == |ds|
    ensures ComposeFrom(ds[..|ds|], rs[..|ds|]) == ComposeFrom(ds, rs)
  {
    assert ds[..|ds|] == ds;
    assert rs[..|ds|] == rs;
  }

  /** A scan that raises ends the reply loop over `sheet` in failure. */
  lemma CrashAt(sheet: Value, ds: seq<string>, i: nat, replies: seq<string>, hasAvailable: bool)
    requires i < |ds| && |Results(sheet, ds)| == |ds| && Results(sheet, ds)[i].Raised?
    requires ComposeFrom(ds[..i], Results(sheet, ds)[..i]) == Composed(replies, hasAvailable)
    ensures Compose(sheet, ds) == Crashed
  {
    ComposeStep(ds, Results(sheet, ds), i, replies, hasAvailable);
  }

  /** The reply loop of handle_message: scan every district in order,
      stopping if a scan raises. */
  method ComposeReplies(sheet: Value, districts: seq<string>) returns (c: Composition)
    ensures c == Compose(sheet, districts)
  {
    ghost var rs := Results(sheet, districts);
    var replies: seq<string> := [];
    var hasAvailable := false;
    var i := 0;
    while i < |districts|
      invariant 0 <= i <= |districts|
      invariant ComposeFrom(districts[..i], rs[..i]) == Composed(replies, hasAvailable)
    {
      var d := districts[i];
      var result := HasRoundForDistrict(sheet, d);
      ResultAt(sheet, districts, i);
      if result.Raised? {
        CrashAt(sheet, districts, i, replies, hasAvailable);
        return Crashed;
      }
      ComposeStep(districts, rs, i, replies, hasAvailable);
      if result.Round? {
        hasAvailable := true;
      }
      var msg := ReplyLine(d, result);
      replies := replies + [msg];
      i := i + 1;
    }
    ComposeWhole(districts, rs);
    return Composed(replies, hasAvailable);
  }

  /** The texts sent back: the reply lines joined by newlines, and the
      follow-up question when some district had a round. */
  function Messages(replies: seq<string>, hasAvailable: bool): (m: seq<string>)
    ensures |m| == (if hasAvailable then 2 else 1)
    ensures m[0] == Join("\n", replies)
    ensures hasAvailable ==> m[1] == FOLLOW_UP
  {
    [Join("\n", replies)] + (if hasAvailable then [FOLLOW_UP] else [])
  }

  /** What the handler does with a message: reply with these texts, or end
      with an exception and send nothing. */
  datatype HandlerOutcome = Replied(messages: seq<string>) | Failed

  // ---------------------------------------------------------------------------
  // The snapshot state

  /** `latest_sheet_data` and `sheet_ready`. */
  datatype SheetState = SheetState(data: Value, ready: bool)

  const INITIAL := SheetState(VNull, false)

  /** The state invariant: before any snapshot is installed, the data is
      Python's `None`. */
  predicate WellFormed(s: SheetState) {
    !s.ready ==> s.data == VNull
  }

  /** How `/update` treats a payload: rejected with 400, accepted with 200
      and the new table, or failing with a `TypeError` (500) because
      `"full_sheet_data" in data` holds for a list or a string, or cannot be
      evaluated for a number or a boolean. */
  datatype UpdateResult = Rejected | Accepted(table: Value) | UpdateFailed

  function ClassifyPayload(payload: Value): (u: UpdateResult)
    ensures u.Accepted? <==> payload.VDict? && HasKey(payload.entries, SHEET_KEY)
    ensures u.Accepted? ==> Get(payload.entries, SHEET_KEY) == Some(u.table)
    ensures Falsy(payload) ==> u == Rejected
    ensures payload.VDict? && !HasKey(payload.entries, SHEET_KEY) ==> u == Rejected
  {
    if Falsy(payload) then Rejected
    else match payload
      case VDict(entries) =>
        if HasKey(entries, SHEET_KEY) then Accepted(GetOr(entries, SHEET_KEY, VNull)) else Rejected
      case VList(items) => if VStr(SHEET_KEY) in items then UpdateFailed else Rejected
      case VStr(s) => if Contains(SHEET_KEY, s) then UpdateFailed else Rejected
      case _ => UpdateFailed
  }

  function StatusOf(u: UpdateResult): int {
    match u
    case Rejected => 400
    case Accepted(_) => 200
    case UpdateFailed => 500
  }

  /** The state after `/update` with `payload`. */
  function AfterUpdate(s: SheetState, payload: Value): (t: SheetState)
    ensures ClassifyPayload(payload).Accepted? ==> t == SheetState(ClassifyPayload(payload).table, true)
    ensures !ClassifyPayload(payload).Accepted? ==> t == s
  {
    match ClassifyPayload(payload)
    case Accepted(table) => SheetState(table, true)
    case _ => s
  }

  /** The state after fetch_sheet_data, given the decoded response body, or
      None when the URL is unset or the request or decoding failed. Only a
      dictionary holding the key replaces the snapshot; every other body
      either fails the key test or raises inside the `try`, which is caught. */
  function AfterFetch(s: SheetState, body: Option<Value>): (t: SheetState)
    ensures t == s || t.ready
  {
    match body
    case Some(VDict(entries)) =>
      if HasKey(entries, SHEET_KEY) then SheetState(GetOr(entries, SHEET_KEY, VNull), true) else s
    case _ => s
  }

  /** No transition withdraws readiness, and all keep the invariant. */
  lemma TransitionsKeepReady(s: SheetState, payload: Value, body: Option<Value>)
    requires WellFormed(s)
    ensures s.ready ==> AfterUpdate(s, payload).ready && AfterFetch(s, body).ready
    ensures WellFormed(AfterUpdate(s, payload)) && WellFormed(AfterFetch(s, body))
  {
  }

  /** Installing the same payload twice leaves the same state as once. */
  lemma UpdateIdempotent(s: SheetState, payload: Value)
    ensures AfterUpdate(AfterUpdate(s, payload), payload) == AfterUpdate(s, payload)
  {
  }

  /** An accepted update discards the previous snapshot entirely. */
  lemma UpdateReplacesWholesale(s1: SheetState, s2: SheetState, payload: Value)
    requires ClassifyPayload(payload).Accepted?
    ensures AfterUpdate(s1, payload) == AfterUpdate(s2, payload)
  {
  }

  /** The fetch installs a snapshot exactly when `/update` would accept the
      same body, and then installs the same one. */
  lemma FetchAgreesWithUpdate(s: SheetState, body: Value)
    ensures ClassifyPayload(body).Accepted? ==> AfterFetch(s, Some(body)) == AfterUpdate(s, body)
    ensures !ClassifyPayload(body).Accepted? ==> AfterFetch(s, Some(body)) == s
  {
  }

  /** A payload that is a list holding the key string, or a string
      containing it, passes the key test and then fails on indexing. */
  lemma NonDictionaryPayloadFails()
    ensures ClassifyPayload(VList([VStr(SHEET_KEY)])) == UpdateFailed
    ensures ClassifyPayload(VStr("x" + SHEET_KEY)) == UpdateFailed
    ensures ClassifyPayload(VNum(1.0, "1")) == UpdateFailed
    ensures ClassifyPayload(VList([VStr("other")])) == Rejected
  {
    assert VStr(SHEET_KEY) in [VStr(SHEET_KEY)];
    assert Contains(SHEET_KEY, ("x" + SHEET_KEY)[1..]) by {
      assert ("x" + SHEET_KEY)[1..] == SHEET_KEY;
    }
  }

  /** The reply for districts `ds` given the snapshot `sheet`: ask to retry
      while no table is loaded, otherwise the reply loop's messages. */
  function ReplyFor(sheet: Value, ds: seq<string>): HandlerOutcome {
    if !sheet.VDict? then Replied([SYNCING])
    else match Compose(sheet, ds)
      case Crashed => Failed
      case Composed(replies, hasAvailable) => Replied(Messages(replies, hasAvailable))
  }

  /** handle_message on state `s`: its outcome and the state it leaves.
      `fetched` stands for the body the fetch would receive; the fetch is
      made only when districts were named and no snapshot is ready. */
  function Handle(s: SheetState, message: string, fetched: Option<Value>): (r: (HandlerOutcome, SheetState))
    ensures ExtractDistricts(message) == [] ==> r == (Replied([ASK_FOR_HOSPITAL]), s)
    ensures ExtractDistricts(message) != [] ==> r.1 == (if s.ready then s else AfterFetch(s, fetched))
    ensures ExtractDistricts(message) != [] ==> (r.0 == Replied([SYNCING]) <==> !r.1.data.VDict?)
    ensures WellFormed(s) ==> WellFormed(r.1)
  {
    var ds := ExtractDistricts(message);
    if ds == [] then (Replied([ASK_FOR_HOSPITAL]), s)
    else
      var t := if s.ready then s else AfterFetch(s, fetched);
      SyncingIffNoTable(t.data, ds);
      (ReplyFor(t.data, ds), t)
  }

  /** A non-empty `Join` starts with its first part. */
  lemma JoinStartsWithFirst(sep: string, parts: seq<string>)
    requires parts != []
    ensures IsPrefix(parts[0], Join(sep, parts))
  {
    if |parts| > 1 {
      var j := Join(sep, parts);
      assert j == parts[0] + (sep + Join(sep, parts[1..]));
      assert j[..|parts[0]|] == parts[0];
    }
  }

  /** Every reply line starts with the available or the not-available mark,
      never with the syncing mark. */
  lemma LineNeverSyncing(d: string, result: ScanResult)
    requires !result.Raised?
    ensures IsPrefix(AVAILABLE_PREFIX, ReplyLine(d, result)) || IsPrefix(NOT_AVAILABLE_PREFIX, ReplyLine(d, result))
    ensures |ReplyLine(d, result)| > 0 && ReplyLine(d, result)[0] != SYNCING[0]
  {
    ReplyLineTellsOutcome(d, result);
    var line := ReplyLine(d, result);
    if result.Round? {
      assert line[..|AVAILABLE_PREFIX|] == AVAILABLE_PREFIX;
      assert line[0] == AVAILABLE_PREFIX[0];
    } else {
      assert line[..|NOT_AVAILABLE_PREFIX|] == NOT_AVAILABLE_PREFIX;
      assert line[0] == NOT_AVAILABLE_PREFIX[0];
    }
  }

  /** Once a district is named, the syncing text is the reply exactly when
      no table is loaded. */
  lemma SyncingIffNoTable(sheet: Value, ds: seq<string>)
    requires ds != []
    ensures ReplyFor(sheet, ds) == Replied([SYNCING]) <==> !sheet.VDict?
  {
    if sheet.VDict? && Compose(sheet, ds).Composed? {
      var rs := Results(sheet, ds);
      ResultsAt(sheet, ds);
      ComposeLines(ds, rs);
      var replies := Compose(sheet, ds).replies;
      LineNeverSyncing(ds[0], rs[0]);
      JoinStartsWithFirst("\n", replies);
      var m := ReplyFor(sheet, ds).messages;
      assert m[0][0] == replies[0][0];
      assert m[0][0] != SYNCING[0];
    }
  }

  /** Before any snapshot has arrived, a fetch that brings nothing leaves
      the handler asking to retry. */
  lemma UnreadyWithoutFetchSyncs(s: SheetState, message: string)
    requires WellFormed(s) && !s.ready && ExtractDistricts(message) != []
    ensures Handle(s, message, None) == (Replied([SYNCING]), s)
  {
  }

  /** What the reply means, district by district: the handler fails exactly
      when some scan raises; otherwise its first text joins one line per
      district, each that district's line, and a second text follows exactly
      when some district has a round. */
  lemma ReplyForMeaning(sheet: Value, ds: seq<string>)
    requires sheet.VDict?
    ensures ReplyFor(sheet, ds) == Failed <==> exists k :: 0 <= k < |ds| && HasRound(sheet, ds[k]).Raised?
    ensures ReplyFor(sheet, ds).Replied? ==>
      var m := ReplyFor(sheet, ds).messages;
      var replies := Compose(sheet, ds).replies;
      m[0] == Join("\n", replies) &&
      |replies| == |ds| &&
      (forall k :: 0 <= k < |ds| ==> !HasRound(sheet, ds[k]).Raised? && replies[k] == ReplyLine(ds[k], HasRound(sheet, ds[k]))) &&
      (|m| == 2 <==> exists k :: 0 <= k < |ds| && HasRound(sheet, ds[k]).Round?) &&
      (|m| == 2 ==> m[1] == FOLLOW_UP)
  {
    var rs := Results(sheet, ds);
    ResultsAt(sheet, ds);
    ComposeCrashesIffRaised(ds, rs);
    if ComposeFrom(ds, rs).Composed? {
      ComposeLines(ds, rs);
      ComposeAvailableIffRound(ds, rs);
    }
  }

  /** A line starts with the "available" mark exactly when the district had
      a round, and then names the hospital; otherwise it names the district. */
  lemma ReplyLineTellsOutcome(d: string, result: ScanResult)
    requires !result.Raised?
    ensures result.Round? ==> IsPrefix(AVAILABLE_PREFIX + result.hit.hospital, ReplyLine(d, result))
    ensures result.NoRound? ==> ReplyLine(d, result) == NOT_AVAILABLE_PREFIX + d
    ensures IsPrefix(AVAILABLE_PREFIX, ReplyLine(d, result)) <==> result.Round?
  {
    var line := ReplyLine(d, result);
    if result.Round? {
      var head := AVAILABLE_PREFIX + result.hit.hospital;
      var tail := line[|head|..];
      assert line == head + tail;
      assert line[..|head|] == head;
      assert line[..|AVAILABLE_PREFIX|] == head[..|AVAILABLE_PREFIX|] == AVAILABLE_PREFIX;
    } else {
      assert line[0] == NOT_AVAILABLE_PREFIX[0] != AVAILABLE_PREFIX[0];
    }
  }

  /** The globals `latest_sheet_data` and `sheet_ready`, with the operations
      that read and replace them. */
  class SheetStore {
    var latestSheetData: Value
    var sheetReady: bool

    function State(): SheetState
      reads this
    {
      SheetState(latestSheetData, sheetReady)
    }

    predicate Valid()
      reads this
    {
      WellFormed(State())
    }

    constructor ()
      ensures State() == INITIAL && Valid()
    {
      latestSheetData := VNull;
      sheetReady := false;
    }

    /** update_sheet: install the payload's table, or leave the state alone
      and report why not. */
    method UpdateSheet(payload: Value) returns (status: int)
      requires Valid()
      modifies this
      ensures Valid()
      ensures status == StatusOf(ClassifyPayload(payload))
      ensures State() == AfterUpdate(old(State()), payload)
      ensures old(sheetReady) ==> sheetReady
    {
      if Falsy(payload) {
        return 400;
      }
      var contains: bool;
      match payload {
        case VDict(entries) => contains := HasKey(entries, SHEET_KEY);
        case VList(items) => contains := VStr(SHEET_KEY) in items;
        case VStr(s) => contains := Contains(SHEET_KEY, s);
        case _ => return 500;
      }
      if !contains {
        return 400;
      }
      if !payload.VDict? {
        return 500;
      }
      latestSheetData := GetOr(payload.entries, SHEET_KEY, VNull);
      sheetReady := true;
      return 200;
    }

    /** fetch_sheet_data's effect on the state, given the decoded body. */
    method FetchSheetData(body: Option<Value>)
      requires Valid()
      modifies this
      ensures Valid()
      ensures State() == AfterFetch(old(State()), body)
      ensures old(sheetReady) ==> sheetReady
    {
      if body.Some? && body.value.VDict? && HasKey(body.value.entries, SHEET_KEY) {
        latestSheetData := GetOr(body.value.entries, SHEET_KEY, VNull);
        sheetReady := true;
      }
    }

    /** handle_message: pick out the districts, fetch the snapshot if none is
      ready, and compose the reply. `fetched` stands for the body the fetch
      would receive. */
    method HandleMessage(message: string, fetched: Option<Value>) returns (out: HandlerOutcome)
      requires Valid()
      modifies this
      ensures Valid()
      ensures (out, State()) == Handle(old(State()), message, fetched)
    {
      var text := Lower(message);
      var districts := FilterMentioned(BURIRAM_DISTRICTS, text);
      if districts == [] {
        return Replied([ASK_FOR_HOSPITAL]);
      }
      if !sheetReady {
        FetchSheetData(fetched);
      }
      if !latestSheetData.VDict? {
        return Replied([SYNCING]);
      }
      var c := ComposeReplies(latestSheetData, districts);
      match c {
        case Crashed =>
          return Failed;
        case Composed(replies, hasAvailable) =>
          return Replied(Messages(replies, hasAvailable));
      }
    }
  }
}
