/**
 * The `uses-passive-event-listeners` audit: given the page's final URL and the
 * page-level event listeners a gatherer recorded, report every listener that
 * blocks scrolling without needing to (same host as the page, a scroll-blocking
 * event type, not passive, and no `.preventDefault()` call in its handler text).
 * The audit passes exactly when nothing is reported.
 */
module PassiveEventListeners {
  import opened Wrappers
  import opened Strings
  import opened UrlHost
  import opened HandlerText

  /** Event types whose default action scrolls the page. */
  const ScrollBlockingEvents: seq<string> := ["wheel", "mousewheel", "touchstart", "touchmove"]

  const DidNotRunMessage: string := "PageLevelEventListeners gatherer did not run"

  datatype Handler = Handler(description: string)

  /**
   * One listener registration. `ownLabel` and `ownCode` stand for own `label`
   * and `code` properties the gatherer's record may already carry (`None` when absent):
   * the audit copies every property of the record over the label and code it
   * synthesises, so these win.
   */
  datatype ListenerRecord = ListenerRecord(
    eventType: string,
    url: string,
    line: nat,
    col: nat,
    objectId: string,
    handler: Handler,
    passive: bool,
    ownLabel: Option<string>,
    ownCode: Option<string>)

  /** A reported listener: the record with a location label and a call-site string. */
  datatype ViolationEntry = ViolationEntry(locationLabel: string, code: string, record: ListenerRecord)

  /** The report formatter tag; the audit always selects the URL-list formatter. */
  datatype Formatter = UrlList

  datatype ExtendedInfo = ExtendedInfo(formatter: Formatter, value: seq<ViolationEntry>)

  /** `rawValue`: the sentinel `-1` (NotRun) or a boolean verdict. */
  datatype RawValue = NotRun | Verdict(passed: bool)

  datatype AuditResult = AuditResult(
    rawValue: RawValue,
    debugString: Option<string>,
    extendedInfo: Option<ExtendedInfo>)

  /** A listener artifact whose own `rawValue` is `-1`: the gatherer ran and failed. */
  datatype GathererFailure = GathererFailure(debugString: Option<string>)

  /** The shapes `artifacts.PageLevelEventListeners` can take. */
  datatype ListenerArtifact =
    | Undefined
    | MinusOne
    | Failed(failure: GathererFailure)
    | Listeners(records: seq<ListenerRecord>)

  datatype Artifacts = Artifacts(finalUrl: string, pageLevelEventListeners: ListenerArtifact)

  predicate IsScrollBlocking(eventType: string) {
    eventType in ScrollBlockingEvents
  }

  /** The four conditions under which the audit reports a listener. */
  predicate IsViolation(r: ListenerRecord, pageHost: Option<string>) {
    && Host(r.url) == pageHost
    && IsScrollBlocking(r.eventType)
    && !r.passive
    && !CallsPreventDefault(r.handler.description)
  }

  /** `a` is `b` with some elements dropped, the rest in their original order. */
  ghost predicate IsSubsequence<T>(a: seq<T>, b: seq<T>)
    decreases |b|
  {
    a == [] || (b != [] && ((a[0] == b[0] && IsSubsequence(a[1..], b[1..])) || IsSubsequence(a, b[1..])))
  }

  /** `listeners.filter(...)`: the violating records, in input order. */
  function Violations(records: seq<ListenerRecord>, pageHost: Option<string>): (kept: seq<ListenerRecord>)
    ensures |kept| <= |records|
    ensures forall r :: r in kept <==> r in records && IsViolation(r, pageHost)
  {
    if records == [] then []
    else
      var rest := Violations(records[1..], pageHost);
      assert records == [records[0]] + records[1..];
      if IsViolation(records[0], pageHost) then [records[0]] + rest else rest
  }

  /** The kept records keep their input order. */
  lemma {:induction false} ViolationsInOrder(records: seq<ListenerRecord>, pageHost: Option<string>)
    ensures IsSubsequence(Violations(records, pageHost), records)
    decreases |records|
  {
    if records != [] {
      var rest := Violations(records[1..], pageHost);
      ViolationsInOrder(records[1..], pageHost);
      if IsViolation(records[0], pageHost) {
        assert ([records[0]] + rest)[1..] == rest;
      }
    }
  }

  /** Every violating record is kept as often as it occurs, every other record never. */
  lemma {:induction false} ViolationsCount(records: seq<ListenerRecord>, pageHost: Option<string>, r: ListenerRecord)
    ensures multiset(Violations(records, pageHost))[r] == if IsViolation(r, pageHost) then multiset(records)[r] else 0
    decreases |records|
  {
    if records != [] {
      var first, rest := records[0], records[1..];
      ViolationsCount(rest, pageHost, r);
      assert records == [first] + rest;
      assert multiset(records) == multiset{first} + multiset(rest);
      if IsViolation(first, pageHost) {
        assert Violations(records, pageHost) == [first] + Violations(rest, pageHost);
        assert multiset(Violations(records, pageHost)) == multiset{first} + multiset(Violations(rest, pageHost));
      } else {
        assert Violations(records, pageHost) == Violations(rest, pageHost);
      }
    }
  }

  /** The label the audit synthesises: `line: L, col: C`. */
  function LocationLabel(line: nat, col: nat): string {
    "line: " + NatToString(line) + ", col: " + NatToString(col)
  }

  /** The reconstructed registration call: `objectId.addEventListener('type', description)`. */
  function CallSite(r: ListenerRecord): (s: string)
    ensures |s| == |r.objectId| + |r.eventType| + |r.handler.description| + 23
    ensures s[..|r.objectId|] == r.objectId
    ensures s[|r.objectId|..|r.objectId| + 19] == ".addEventListener('"
    ensures s[|r.objectId| + 19..|r.objectId| + 19 + |r.eventType|] == r.eventType
    ensures s[|r.objectId| + 19 + |r.eventType|..|r.objectId| + 22 + |r.eventType|] == "', "
    ensures s[|s| - 1 - |r.handler.description|..|s| - 1] == r.handler.description
    ensures s[|s| - 1] == ')'
  {
    r.objectId + ".addEventListener('" + r.eventType + "', " + r.handler.description + ")"
  }

  /** `Object.assign({label, code}, loc)`: the record's own `label`/`code` override the synthesised ones. */
  function ToEntry(r: ListenerRecord): (e: ViolationEntry)
    ensures e.record == r
    ensures r.ownLabel.Some? ==> e.locationLabel == r.ownLabel.value
    ensures r.ownLabel.None? ==> e.locationLabel == LocationLabel(r.line, r.col)
    ensures r.ownCode.Some? ==> e.code == r.ownCode.value
    ensures r.ownCode.None? ==> e.code == CallSite(r)
  {
    ViolationEntry(r.ownLabel.GetOr(LocationLabel(r.line, r.col)), r.ownCode.GetOr(CallSite(r)), r)
  }

  /** `.map(...)`: one entry per kept record, in the same order. */
  function Entries(kept: seq<ListenerRecord>): (entries: seq<ViolationEntry>)
    ensures |entries| == |kept|
    ensures forall i :: 0 <= i < |kept| ==> entries[i].record == kept[i]
  {
    seq(|kept|, i requires 0 <= i < |kept| => ToEntry(kept[i]))
  }

  /** The records behind the entries a result reports (none when it has no extended info). */
  function ReportedRecords(result: AuditResult): seq<ListenerRecord> {
    match result.extendedInfo
    case None => []
    case Some(info) => seq(|info.value|, i requires 0 <= i < |info.value| => info.value[i].record)
  }

  /** The audit's host of the page: `url.parse(artifacts.URL.finalUrl).host`. */
  function PageHost(artifacts: Artifacts): Option<string> {
    Host(artifacts.finalUrl)
  }

  function Audit(artifacts: Artifacts): (result: AuditResult)
    ensures artifacts.pageLevelEventListeners.Undefined? || artifacts.pageLevelEventListeners.MinusOne? ==>
              result == AuditResult(NotRun, Some(DidNotRunMessage), None)
    ensures artifacts.pageLevelEventListeners.Failed? ==>
              result == AuditResult(NotRun, artifacts.pageLevelEventListeners.failure.debugString, None)
    ensures artifacts.pageLevelEventListeners.Listeners? ==>
              && result.rawValue.Verdict?
              && result.debugString == None
              && result.extendedInfo.Some?
              && result.extendedInfo.value.formatter == UrlList
              && (result.rawValue.passed <==> result.extendedInfo.value.value == [])
              && (result.rawValue.passed <==>
                    forall r :: r in artifacts.pageLevelEventListeners.records ==> !IsViolation(r, PageHost(artifacts)))
  {
    match artifacts.pageLevelEventListeners
    case Undefined => AuditResult(NotRun, Some(DidNotRunMessage), None)
    case MinusOne => AuditResult(NotRun, Some(DidNotRunMessage), None)
    case Failed(failure) => AuditResult(NotRun, failure.debugString, None)
    case Listeners(records) =>
      var kept := Violations(records, PageHost(artifacts));
      assert kept != [] ==> kept[0] in kept;
      var results := Entries(kept);
      AuditResult(Verdict(|results| == 0), None, Some(ExtendedInfo(UrlList, results)))
  }

  /** On a listener list, the reported records are exactly the violating ones. */
  lemma ReportedIffViolation(artifacts: Artifacts, r: ListenerRecord)
    requires artifacts.pageLevelEventListeners.Listeners?
    ensures r in ReportedRecords(Audit(artifacts)) <==>
              r in artifacts.pageLevelEventListeners.records && IsViolation(r, PageHost(artifacts))
  {
    ReportedAreViolations(artifacts);
  }

  /**
   * On a listener list, the reported records are the violating records in
   * their input order, each as often as it occurs in the input.
   */
  lemma ReportedAreViolations(artifacts: Artifacts)
    requires artifacts.pageLevelEventListeners.Listeners?
    ensures ReportedRecords(Audit(artifacts)) ==
              Violations(artifacts.pageLevelEventListeners.records, PageHost(artifacts))
  {
    var kept := Violations(artifacts.pageLevelEventListeners.records, PageHost(artifacts));
    assert ReportedRecords(Audit(artifacts)) == kept;
  }

  lemma ReportedInInputOrder(artifacts: Artifacts)
    requires artifacts.pageLevelEventListeners.Listeners?
    ensures IsSubsequence(ReportedRecords(Audit(artifacts)), artifacts.pageLevelEventListeners.records)
    ensures |ReportedRecords(Audit(artifacts))| <= |artifacts.pageLevelEventListeners.records|
    ensures forall r :: multiset(ReportedRecords(Audit(artifacts)))[r] ==
              if IsViolation(r, PageHost(artifacts)) then multiset(artifacts.pageLevelEventListeners.records)[r] else 0
  {
    ReportedAreViolations(artifacts);
    ViolationsInOrder(artifacts.pageLevelEventListeners.records, PageHost(artifacts));
    forall r {
      ViolationsCount(artifacts.pageLevelEventListeners.records, PageHost(artifacts), r);
    }
  }

  /** Each reported entry carries its record's label and code, synthesised unless the record has its own. */
  lemma EntryFields(artifacts: Artifacts, i: nat)
    requires artifacts.pageLevelEventListeners.Listeners?
    requires i < |Audit(artifacts).extendedInfo.value.value|
    ensures var e := Audit(artifacts).extendedInfo.value.value[i];
            && e.record == ReportedRecords(Audit(artifacts))[i]
            && e.locationLabel == (if e.record.ownLabel.Some? then e.record.ownLabel.value
                                   else LocationLabel(e.record.line, e.record.col))
            && e.code == (if e.record.ownCode.Some? then e.record.ownCode.value else CallSite(e.record))
  {
  }

  /** A listener for any event type outside the scroll-blocking set is never reported. */
  lemma OnlyScrollBlockingReported(artifacts: Artifacts, r: ListenerRecord)
    requires !IsScrollBlocking(r.eventType)
    ensures r !in ReportedRecords(Audit(artifacts))
  {
    if artifacts.pageLevelEventListeners.Listeners? {
      ReportedIffViolation(artifacts, r);
    }
  }

  /** A listener registered by a script on another host than the page is never reported. */
  lemma OtherHostNotReported(artifacts: Artifacts, r: ListenerRecord)
    requires Host(r.url) != PageHost(artifacts)
    ensures r !in ReportedRecords(Audit(artifacts))
  {
    if artifacts.pageLevelEventListeners.Listeners? {
      ReportedIffViolation(artifacts, r);
    }
  }

  /**
   * Hosts are compared exactly: a script served from a subdomain of the
   * page's host (`sub.host`) is on another host, and its listeners are not reported.
   */
  lemma SubdomainNotReported(artifacts: Artifacts, r: ListenerRecord,
                             scheme: string, sub: string, host: string, path: string)
    requires scheme != [] && forall i :: 0 <= i < |scheme| ==> IsSchemeChar(scheme[i])
    requires sub != [] && NoHostEnd(sub) && NoHostEnd(host)
    requires path == [] || EndsHost(path[0])
    requires PageHost(artifacts) == Some(host)
    requires r.url == scheme + "://" + sub + "." + host + path
    ensures r !in ReportedRecords(Audit(artifacts))
  {
    var subHost := sub + "." + host;
    NoHostEndConcat(sub, ".");
    NoHostEndConcat(sub + ".", host);
    assert scheme + "://" + sub + "." + host == scheme + "://" + subHost;
    HostOfAssembled(scheme, subHost, path);
    assert |subHost| > |host|;
    OtherHostNotReported(artifacts, r);
  }

  lemma LocationLabelParts(line: nat, col: nat)
    ensures LocationLabel(line, col) == "line: " + (NatToString(line) + (", col: " + NatToString(col)))
  {
  }

  /** The label determines the line and column it was made from. */
  lemma {:induction false} LocationLabelInjective(line1: nat, col1: nat, line2: nat, col2: nat)
    requires LocationLabel(line1, col1) == LocationLabel(line2, col2)
    ensures line1 == line2 && col1 == col2
  {
    var a1, b1 := NatToString(line1), NatToString(col1);
    var a2, b2 := NatToString(line2), NatToString(col2);
    LocationLabelParts(line1, col1);
    LocationLabelParts(line2, col2);
    var s := LocationLabel(line1, col1);
    assert s[6..] == a1 + (", col: " + b1) && s[6..] == a2 + (", col: " + b2);
    DigitRunsEqual(a1, ", col: " + b1, a2, ", col: " + b2);
    assert b1 == (", col: " + b1)[7..] && b2 == (", col: " + b2)[7..];
    NatToStringInjective(line1, line2);
    NatToStringInjective(col1, col2);
  }

  // Worked cases: one listener, registered on `window` at line 10, column 5,
  // by a script at `scriptUrl`, on a page whose final URL is `page`.

  function WindowListener(eventType: string, scriptUrl: string, passive: bool, description: string): ListenerRecord {
    ListenerRecord(eventType, scriptUrl, 10, 5, "window", Handler(description), passive, None, None)
  }

  function SingleListenerAudit(page: string, r: ListenerRecord): AuditResult {
    Audit(Artifacts(page, Listeners([r])))
  }

  lemma WindowTouchstartEntry(scriptUrl: string)
    ensures var r := WindowListener("touchstart", scriptUrl, false, "function(e){}");
            ToEntry(r) == ViolationEntry("line: 10, col: 5", "window.addEventListener('touchstart', function(e){})", r)
  {
    LabelOfLineTenColFive();
    WindowTouchstartCallSite(scriptUrl);
  }

  lemma WindowTouchstartCallSite(scriptUrl: string)
    ensures CallSite(WindowListener("touchstart", scriptUrl, false, "function(e){}")) ==
              "window.addEventListener('touchstart', function(e){})"
  {
    CallSiteHead();
    CallSiteTail();
  }

  lemma CallSiteHead()
    ensures "window" + ".addEventListener('" + "touchstart" == "window.addEventListener('touchstart"
  {
    assert "window" + ".addEventListener('" == "window.addEventListener('";
  }

  lemma CallSiteTail()
    ensures "window.addEventListener('touchstart" + "', " + "function(e){}" + ")" ==
              "window.addEventListener('touchstart', function(e){})"
  {
    assert "window.addEventListener('touchstart" + "', " == "window.addEventListener('touchstart', ";
  }

  lemma LabelOfLineTenColFive()
    ensures LocationLabel(10, 5) == "line: 10, col: 5"
  {
    assert NatToString(10) == "10" && NatToString(5) == "5";
  }

  /** A non-passive same-host touchstart listener without preventDefault is reported, with its label and call site. */
  lemma NonPassiveTouchstartReported(page: string, scriptUrl: string)
    requires Host(scriptUrl) == Host(page)
    ensures var r := WindowListener("touchstart", scriptUrl, false, "function(e){}");
            SingleListenerAudit(page, r) ==
              AuditResult(Verdict(false), None, Some(ExtendedInfo(UrlList, [
                ViolationEntry("line: 10, col: 5", "window.addEventListener('touchstart', function(e){})", r)])))
  {
    var r := WindowListener("touchstart", scriptUrl, false, "function(e){}");
    assert IsViolation(r, Host(page));
    assert Violations([r], Host(page)) == [r];
    assert Entries([r]) == [ToEntry(r)];
    WindowTouchstartEntry(scriptUrl);
  }

  /** The same listener registered as passive is compliant. */
  lemma PassiveTouchstartPasses(page: string, scriptUrl: string)
    requires Host(scriptUrl) == Host(page)
    ensures SingleListenerAudit(page, WindowListener("touchstart", scriptUrl, true, "function(e){}")) ==
              AuditResult(Verdict(true), None, Some(ExtendedInfo(UrlList, [])))
  {
  }

  /** A handler whose text calls `e.preventDefault()` is exempt. */
  lemma PreventDefaultHandlerPasses(page: string, scriptUrl: string)
    requires Host(scriptUrl) == Host(page)
    ensures SingleListenerAudit(page, WindowListener("touchstart", scriptUrl, false, "function(e){e.preventDefault()}")) ==
              AuditResult(Verdict(true), None, Some(ExtendedInfo(UrlList, [])))
  {
    var r := WindowListener("touchstart", scriptUrl, false, "function(e){e.preventDefault()}");
    ExampleHandlerCallsPreventDefault();
    assert Violations([r], Host(page)) == [];
  }

  lemma ExampleHandlerCallsPreventDefault()
    ensures CallsPreventDefault("function(e){e.preventDefault()}")
  {
    var description := "function(e){e.preventDefault()}";
    assert description == "function(e){e" + PreventDefaultCall + ")}";
    CallBetween("function(e){e", ")}");
  }

  /** A listener added by a script on another host is not reported. */
  lemma CrossHostListenerPasses(page: string, scriptUrl: string)
    requires Host(scriptUrl) != Host(page)
    ensures SingleListenerAudit(page, WindowListener("touchstart", scriptUrl, false, "function(e){}")) ==
              AuditResult(Verdict(true), None, Some(ExtendedInfo(UrlList, [])))
  {
  }

  /** A `click` listener is not scroll-blocking and is not reported. */
  lemma ClickListenerPasses(page: string, scriptUrl: string)
    requires Host(scriptUrl) == Host(page)
    ensures SingleListenerAudit(page, WindowListener("click", scriptUrl, false, "function(e){}")) ==
              AuditResult(Verdict(true), None, Some(ExtendedInfo(UrlList, [])))
  {
  }
}
