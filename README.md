# Passive event listeners audit and trace-viewer GUIDs, in Dafny

This project models two small parts of Lighthouse.

**The `uses-passive-event-listeners` audit.** The audit receives the page's
final URL and the page-level event listeners a gatherer recorded. The
artifact is either missing (`undefined` or `-1`), a gatherer failure (an
object whose `rawValue` is `-1`), or a list of listener records. On a list,
the audit keeps every listener that meets all four of these conditions:

- its script's host equals the page's host;
- its event type is one of `wheel`, `mousewheel`, `touchstart` or `touchmove`;
- it is not passive;
- its handler text does not match `/\.preventDefault\(\s*\)/`.

Each kept listener becomes an entry with a `line: L, col: C` label and an
`objectId.addEventListener('type', description)` call site. The record's
own `label`/`code` properties, when it has them, override the synthesised
ones. The audit passes exactly when no entry is reported.

Files:
- `passive_event_listeners.dfy`: the artifacts, the result and the audit.
- `url_host.dfy`: a stated `host` parser.
- `handler_text.dfy`: the regular-expression test. It is defined once as a
  ghost predicate (a match exists) and once as a left-to-right scan, and
  the two are proved equal.
- `strings.dfy`: decimal and hexadecimal renderings.
- `wrappers.dfy`: `Option`.

**The trace viewer's `tr.b.GUID`** (`guid.dfy`). `allocateSimple` hands out
1, 2, 3, … from a module-level counter. `getLastSimpleGuid` peeks at the
last id handed out. The counter is a class with a `nextGuid` field that the
allocation method advances. A ghost history of issued ids carries the
uniqueness invariant.

`allocateUUID4` substitutes `xxxxxxxx-xxxx-4xxx-yxxx-xxxxxxxxxxxx`. The
pattern has 31 placeholders: 30 `x` and one `y`; the `4` is a literal.
Each placeholder is replaced by one random nibble, and the `y` by
`(r & 3) + 8`. The model takes the 31 nibbles as input and proves two
things:
- the outputs are exactly the strings with the version-4 layout of RFC 4122,
  section 4.4;
- the output determines every draw except the two bits `r & 3` discards.

## Model

| member | source | states |
|---|---|---|
| PassiveEventListeners.Audit | lighthouse-core/audits/dobetterweb/uses-passive-event-listeners.js:52-89 | A missing artifact (`undefined` or `-1`) gives rawValue -1 with the "gatherer did not run" debug string. A failed gatherer's own debug string is passed through. A listener list gives a boolean verdict with URL-list extended info. The verdict is true iff no entry is reported, and iff no record is a violation. |
| PassiveEventListeners.IsScrollBlocking | lighthouse-core/audits/dobetterweb/uses-passive-event-listeners.js:29-31 | `SCROLL_BLOCKING_EVENTS.indexOf(type) !== -1`: membership in the list `wheel`, `mousewheel`, `touchstart`, `touchmove` (the constant ScrollBlockingEvents). OnlyScrollBlockingReported and ClickListenerPasses state its effect on the audit. |
| PassiveEventListeners.IsViolation | lighthouse-core/audits/dobetterweb/uses-passive-event-listeners.js:69-74 | The filter predicate: the script's host equals the page's host, the type is scroll-blocking, the listener is not passive, and the handler text does not match the preventDefault pattern. Violations, ReportedIffViolation and the worked cases state what it keeps and drops. |
| PassiveEventListeners.PageHost | lighthouse-core/audits/dobetterweb/uses-passive-event-listeners.js:64 | The page's host is the host of the artifacts' final URL. |
| PassiveEventListeners.LocationLabel | lighthouse-core/audits/dobetterweb/uses-passive-event-listeners.js:77 | The template `line: L, col: C`, with L and C in decimal. LocationLabelInjective proves that the label determines both numbers. |
| PassiveEventListeners.CallSite | lighthouse-core/audits/dobetterweb/uses-passive-event-listeners.js:78 | The template `objectId.addEventListener('type', description)`. The contract fixes every character. The string is 23 characters longer than its three parts, laid out in order: the object id, the 19 characters `.addEventListener('`, the event type, the 3 characters `', `, the handler text, and a final `)`. |
| PassiveEventListeners.ToEntry | lighthouse-core/audits/dobetterweb/uses-passive-event-listeners.js:76-79 | `Object.assign` with the record's properties copied last. The entry keeps the record. Its label is the record's own label when it has one, else the synthesised label; the same holds for its code. |
| PassiveEventListeners.Entries | lighthouse-core/audits/dobetterweb/uses-passive-event-listeners.js:75-80 | The `.map` gives exactly one entry per kept record, and entry i carries record i. |
| PassiveEventListeners.Violations | lighthouse-core/audits/dobetterweb/uses-passive-event-listeners.js:68-74 | The filter keeps no more records than it is given. A record is kept iff it occurs in the input and is a violation: same host, scroll-blocking type, not passive, no preventDefault call. |
| PassiveEventListeners.ViolationsInOrder | lighthouse-core/audits/dobetterweb/uses-passive-event-listeners.js:68-74 | The kept records are a subsequence of the input: the filter keeps input order. |
| PassiveEventListeners.ViolationsCount | lighthouse-core/audits/dobetterweb/uses-passive-event-listeners.js:68-74 | Each violating record is kept exactly as many times as it occurs in the input; any other record is never kept. |
| PassiveEventListeners.ReportedAreViolations | lighthouse-core/audits/dobetterweb/uses-passive-event-listeners.js:68-86 | On a listener list, the records behind the reported entries are exactly the filtered violations, in order. |
| PassiveEventListeners.ReportedIffViolation | lighthouse-core/audits/dobetterweb/uses-passive-event-listeners.js:68-86 | A record is reported iff it is in the input list and meets all four conditions. |
| PassiveEventListeners.ReportedInInputOrder | lighthouse-core/audits/dobetterweb/uses-passive-event-listeners.js:68-86 | The reported records are a subsequence of the input, no longer than it, with each violating record's multiplicity kept. |
| PassiveEventListeners.EntryFields | lighthouse-core/audits/dobetterweb/uses-passive-event-listeners.js:75-80 | Entry i carries the i-th reported record. Its label is the record's own label if any, else `line: L, col: C`. Its code is the record's own code if any, else the reconstructed `addEventListener` call. |
| PassiveEventListeners.OnlyScrollBlockingReported | lighthouse-core/audits/dobetterweb/uses-passive-event-listeners.js:29-31 | A listener whose type is not wheel, mousewheel, touchstart or touchmove is never reported, whatever the artifacts. |
| PassiveEventListeners.OtherHostNotReported | lighthouse-core/audits/dobetterweb/uses-passive-event-listeners.js:64-72 | A listener whose script host differs from the page's host is never reported. |
| PassiveEventListeners.SubdomainNotReported | lighthouse-core/audits/dobetterweb/uses-passive-event-listeners.js:64-72 | Hosts are compared exactly: a script at `scheme://sub.host/...` on a page whose host is `host` is never reported. |
| PassiveEventListeners.LocationLabelInjective | lighthouse-core/audits/dobetterweb/uses-passive-event-listeners.js:77 | Two equal synthesised labels come from the same line and the same column. |
| PassiveEventListeners.WindowTouchstartEntry | lighthouse-core/audits/dobetterweb/uses-passive-event-listeners.js:75-80 | A `window` touchstart listener at line 10, column 5 gets the label `line: 10, col: 5` and the code `window.addEventListener('touchstart', function(e){})`. |
| PassiveEventListeners.NonPassiveTouchstartReported | lighthouse-core/audits/dobetterweb/uses-passive-event-listeners.js:68-88 | A lone non-passive same-host touchstart listener without preventDefault fails the audit with exactly that one entry. |
| PassiveEventListeners.PassiveTouchstartPasses | lighthouse-core/audits/dobetterweb/uses-passive-event-listeners.js:73 | The same listener registered as passive passes, with an empty list. |
| PassiveEventListeners.PreventDefaultHandlerPasses | lighthouse-core/audits/dobetterweb/uses-passive-event-listeners.js:70-74 | The same listener whose handler calls `e.preventDefault()` passes, with an empty list. |
| PassiveEventListeners.CrossHostListenerPasses | lighthouse-core/audits/dobetterweb/uses-passive-event-listeners.js:72-73 | The same listener from a script on another host passes. |
| PassiveEventListeners.ClickListenerPasses | lighthouse-core/audits/dobetterweb/uses-passive-event-listeners.js:69 | A `click` listener is not scroll-blocking, so the page passes. |
| HandlerText.CallsPreventDefault | lighthouse-core/audits/dobetterweb/uses-passive-event-listeners.js:70-71 | The scan is true iff the text contains `.preventDefault(`, any run of JavaScript whitespace, then `)`. |
| HandlerText.CallsPreventDefaultFrom | lighthouse-core/audits/dobetterweb/uses-passive-event-listeners.js:70-71 | Scanning from position i is true iff a match starts at or after i. |
| HandlerText.ClosesAfterSpaces | lighthouse-core/audits/dobetterweb/uses-passive-event-listeners.js:71 | True iff, from position j, only whitespace comes before some `)`. |
| HandlerText.CallBetween | lighthouse-core/audits/dobetterweb/uses-passive-event-listeners.js:70-71 | `.preventDefault()` is detected whatever text surrounds it. |
| UrlHost.Host | lighthouse-core/audits/dobetterweb/uses-passive-event-listeners.js:64 | A host, when present, contains none of `/`, `?`, `#`. |
| UrlHost.HostOfAssembled | lighthouse-core/audits/dobetterweb/uses-passive-event-listeners.js:72 | `scheme://host` followed by an empty path or one starting with `/`, `?` or `#` parses back to exactly `host`. |
| Strings.NatToString | lighthouse-core/audits/dobetterweb/uses-passive-event-listeners.js:77 | The rendering of a number is a non-empty run of decimal digits. It starts with `0` only for zero: no leading zeros. |
| Strings.ParseNatToString | lighthouse-core/audits/dobetterweb/uses-passive-event-listeners.js:77 | Reading back the decimal rendering of a line or column number gives the number. |
| Strings.NatToStringInjective | lighthouse-core/audits/dobetterweb/uses-passive-event-listeners.js:77 | Distinct numbers render differently. |
| Guid.SimpleGuidAllocator.constructor | lighthouse-core/third_party/traceviewer-js/base/guid.js:13 | The counter starts at 1 with nothing issued. |
| Guid.SimpleGuidAllocator.AllocateSimple | lighthouse-core/third_party/traceviewer-js/base/guid.js:25-27 | Returns the counter's old value and advances the counter by one. The id is appended to the history, it exceeds every earlier id, and the counter invariant is kept. |
| Guid.SimpleGuidAllocator.GetLastSimpleGuid | lighthouse-core/third_party/traceviewer-js/base/guid.js:33-35 | Returns the last id issued, or 0 before any, and changes nothing. |
| Guid.IssuedStrictlyIncreasing | lighthouse-core/third_party/traceviewer-js/base/guid.js:18-27 | The ids issued so far are strictly increasing, hence pairwise distinct: unique within one load. |
| Guid.AllocationSequence | lighthouse-core/third_party/traceviewer-js/base/guid.js:13-35 | On a fresh counter: peek 0, allocate 1, peek 1 twice, allocate 2, peek 2. |
| Guid.AllocateUuid4 | lighthouse-core/third_party/traceviewer-js/base/guid.js:46-52 | The output has the version-4 layout: 36 characters, dashes at 8/13/18/23, `4` at 14, a variant digit 8-b at 19, lower-case hex elsewhere. Position 19 is `(r & 3) + 8` of the 16th draw. |
| Guid.VariantNibble | lighthouse-core/third_party/traceviewer-js/base/guid.js:49 | The variant digit lies in 8..11 and keeps the draw's low two bits. |
| Guid.Uuid4LayoutIsRange | lighthouse-core/third_party/traceviewer-js/base/guid.js:46-52 | A string has the version-4 layout iff some 31 draws produce it. |
| Guid.LayoutIsReachable | lighthouse-core/third_party/traceviewer-js/base/guid.js:46-52 | Every string with the layout is produced by the draws read back from it. |
| Guid.DrawsRecovered | lighthouse-core/third_party/traceviewer-js/base/guid.js:47-50 | Reading the output back gives every draw unchanged, except the variant draw, which comes back as `r & 3`. |
| Guid.PatternGroups | lighthouse-core/third_party/traceviewer-js/base/guid.js:15 | The pattern is eight `x`, dash, four `x`, dash, `4` and three `x`, dash, `y` and three `x`, dash, twelve `x`. |
| Guid.GroupsSubstitute | lighthouse-core/third_party/traceviewer-js/base/guid.js:47-51 | The pattern has 31 placeholders. Substituting the draws renders draws 1-8, 9-12, 13-15, the variant of draw 16, 17-19 and 20-31 in their groups. |
| Guid.Substitute | lighthouse-core/third_party/traceviewer-js/base/guid.js:47-51 | The replacement keeps the pattern's length. |
| Strings.HexDigit | lighthouse-core/third_party/traceviewer-js/base/guid.js:50 | `v.toString(16)` for v below 16 is one lower-case hex digit. |
| Strings.HexValue | lighthouse-core/third_party/traceviewer-js/base/guid.js:50 | Every lower-case hex digit is `v.toString(16)` of exactly one value v below 16. |

## Left out

- `meta` (the audit's category, name, description, help text and required artifacts) is static data with no behaviour to prove.
- `generateAuditResult` belongs to the `Audit` base class, which is not part of this model. The result is modelled as the three fields this audit passes to it: `rawValue`, `debugString` and `extendedInfo`. A failed gatherer's artifact is reduced to its debug string.
- UrlHost.Host: Node's `url.parse` is not part of this model. The stated parser takes `scheme://` and then everything up to the first `/`, `?` or `#`. It does not lower-case, strip `user@` credentials, or handle `\`. A URL without `scheme://` has no host here. `url.parse` also reads a host from schemes written without `//` (`about:blank` has host `blank`, and `mailto:` and `data:` URLs have hosts too). It also ends the host at further characters, such as `;`, `%`, space and quotes, and it validates hostname labels. These differences are not modelled. Two absent hosts compare equal, as `null === null` does for relative or empty URLs.
- Line and column numbers are non-negative integers; the gatherer's own types are not part of this model.
- Strings.NatToString: renders every number in plain decimal. JavaScript switches to exponent form at 10^21 (`1e+21`), far beyond any line or column number.
- Characters are Unicode scalar values rather than UTF-16 code units. The whitespace class `\s` lists the code points JavaScript defines for it.
- Guid.SimpleGuidAllocator.AllocateSimple: the counter is an unbounded integer. JavaScript's double loses exactness above 2^53, far beyond any run.
- Guid.AllocateUuid4: `Math.random()` and `parseInt` are replaced by 31 supplied draws in 0..15, one per placeholder, in left-to-right order. Randomness and global uniqueness across loads are not modelled.
- The process-wide `nextGUID` is one allocator object. The `tr.exportTo` registration and the `require` plumbing are left out. Concurrency does not arise in single-threaded JavaScript.
