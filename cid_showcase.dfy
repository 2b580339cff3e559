/** Model of launchpad_helper_cid_showcase.py: for each CID, the bugs a
    search tagged with it returned are folded into `lp_api_return`, a
    dictionary from bug number to a record holding the bug's link, a label
    taken from the task title and the CIDs that matched the bug. The search
    results are an input here instead of calls to the service. */
module CidShowcase {
  import opened Wrappers
  import opened Text
  import LaunchpadHelper

  const BugsRoot := "https://bugs.launchpad.net/"
  const FailureRateMarker := "[Failure rate]"
  const StageMarker := "[Stage]"

  /** One bug a search returned: its number, its description and the title
      of the matching task. */
  datatype Hit = Hit(number: nat, description: string, title: string)

  /** The search for one CID and the bugs it returned, in order. */
  datatype Search = Search(cid: string, hits: seq<Hit>)

  /** One `(cid, bug)` pair as the nested loops visit it. */
  datatype Match = Match(cid: string, hit: Hit)

  /** `{"link": ..., "title": ..., "CID": [...]}`. */
  datatype Record = Record(link: string, title: string, cids: seq<string>)

  /** `lp_api_return`: the records by bug number, and the bug numbers in the
      order they were inserted (the order a Python dict keeps). */
  datatype Table = Table(order: seq<nat>, records: map<nat, Record>)

  /** The script's variables between two matches: the table and the
      module-level `content`, which is unbound (`None`) until a title first
      yields a label and afterwards keeps the last label found. */
  datatype State = State(table: Table, content: Option<string>)

  /** The script stops when it reads `content` while it is unbound. */
  datatype ScriptError = NameError(name: string)

  const Initial := State(Table([], map[]), None)

  /** `f"https://bugs.launchpad.net/{projectx}/+bug/{bug_number}"`; the bug
      number can be read back from the link. */
  function BugLink(project: string, number: nat): (r: string)
    ensures |r| > |BugsRoot + project + "/+bug/"|
    ensures r[..|BugsRoot + project + "/+bug/"|] == BugsRoot + project + "/+bug/"
    ensures IsDecimal(r[|BugsRoot + project + "/+bug/"|..])
    ensures DecimalValue(r[|BugsRoot + project + "/+bug/"|..]) == number
    ensures r[|BugsRoot + project + "/+bug/"|..] == DecimalString(number)
  {
    var prefix := BugsRoot + project + "/+bug/";
    DecimalRoundTrip(number);
    assert (prefix + DecimalString(number))[|prefix|..] == DecimalString(number);
    prefix + DecimalString(number)
  }

  /** The search `\[Failure rate\](.*?)\[Stage\]` with `re.DOTALL`, then
      `strip()` of the group: the text after the first `[Failure rate]` up
      to the first `[Stage]` after it. There is a result exactly when some
      `[Failure rate]` is followed, later, by a `[Stage]`. */
  function FailureRateSection(contents: string): (r: Option<string>)
    ensures r.Some? <==> exists i: nat, j: nat :: OccursAt(contents, FailureRateMarker, i)
                                      && i + |FailureRateMarker| <= j
                                      && OccursAt(contents, StageMarker, j)
  {
    match IndexOf(contents, FailureRateMarker, 0)
    case None => None
    case Some(p) =>
      match IndexOf(contents, StageMarker, p + |FailureRateMarker|)
      case None => None
      case Some(q) => Some(Strip(contents[p + |FailureRateMarker|..q]))
  }

  /** The section is the stripped text between the FIRST `[Failure rate]`
      and the first `[Stage]` that follows it. */
  lemma FailureRateSectionIs(contents: string, p: nat, q: nat)
    requires OccursAt(contents, FailureRateMarker, p)
    requires forall k :: 0 <= k < p ==> !OccursAt(contents, FailureRateMarker, k)
    requires p + |FailureRateMarker| <= q && OccursAt(contents, StageMarker, q)
    requires forall k :: p + |FailureRateMarker| <= k < q ==> !OccursAt(contents, StageMarker, k)
    ensures FailureRateSection(contents) == Some(Strip(contents[p + |FailureRateMarker|..q]))
  {
    var first := IndexOf(contents, FailureRateMarker, 0);
    assert first.Some? && first.value == p;
    var stage := IndexOf(contents, StageMarker, p + |FailureRateMarker|);
    assert stage.Some? && stage.value == q;
  }

  /** The first `"` or newline at or after `from`. */
  function NextQuoteOrNewline(t: string, from: nat): (r: Option<nat>)
    ensures r.Some? ==> from <= r.value < |t| && (t[r.value] == '"' || t[r.value] == '\n')
    ensures r.Some? ==> forall k :: from <= k < r.value ==> t[k] != '"' && t[k] != '\n'
    ensures r.None? ==> forall k :: from <= k < |t| ==> t[k] != '"' && t[k] != '\n'
    decreases |t| - from
  {
    if from >= |t| then None
    else if t[from] == '"' || t[from] == '\n' then Some(from)
    else NextQuoteOrNewline(t, from + 1)
  }

  /** The search `"(.*?)"` (where `.` stops at a newline) started at `from`:
      an opening quote whose next quote comes before any newline gives the
      text between them; an opening quote cut off by a newline is skipped. */
  function QuotedFrom(t: string, from: nat): (r: Option<string>)
    ensures r.Some? ==> '"' !in r.value && '\n' !in r.value
    ensures r.Some? ==> exists i: nat, j: nat :: from <= i < j < |t| && t[i] == '"' && t[j] == '"' && r.value == t[i + 1..j]
    decreases |t| - from
  {
    match IndexOf(t, "\"", from)
    case None => None
    case Some(i) =>
      assert t[i..i + 1][0] == t[i];
      match NextQuoteOrNewline(t, i + 1)
      case None => None
      case Some(j) => if t[j] == '"' then Some(t[i + 1..j]) else QuotedFrom(t, j + 1)
  }

  /** `re.search(r'"(.*?)"', title).group(1)`, when there is a match. */
  function QuotedLabel(title: string): (r: Option<string>)
    ensures r.Some? ==> '"' !in r.value && '\n' !in r.value
    ensures r.Some? ==> exists i: nat, j: nat :: i < j < |title| && title[i] == '"' && title[j] == '"' && r.value == title[i + 1..j]
    ensures '"' !in title ==> r.None?
  {
    QuotedFrom(title, 0)
  }

  /** The label is the text between the first quote and the next one when
      no newline comes between them. */
  lemma QuotedLabelIs(t: string, i: nat, j: nat)
    requires i < j < |t| && t[i] == '"' && t[j] == '"'
    requires forall k :: 0 <= k < i ==> t[k] != '"'
    requires forall k :: i < k < j ==> t[k] != '"' && t[k] != '\n'
    ensures QuotedLabel(t) == Some(t[i + 1..j])
  {
    var open := IndexOf(t, "\"", 0);
    assert OccursAt(t, "\"", i) by {
      assert t[i..i + 1] == [t[i]];
    }
    var p := open.value;
    assert t[p..p + 1][0] == t[p];
    assert open == Some(i);
    var close := NextQuoteOrNewline(t, i + 1);
    assert close == Some(j);
  }

  /** A one-line title holding two quotes has a label (and, by the contract
      of `QuotedLabel`, a title with a label holds two quotes). */
  lemma QuotedLabelSingleLine(t: string, i: nat, j: nat)
    requires '\n' !in t
    requires i < j < |t| && t[i] == '"' && t[j] == '"'
    ensures QuotedLabel(t).Some?
  {
    var open := IndexOf(t, "\"", 0);
    assert OccursAt(t, "\"", i) by {
      assert t[i..i + 1] == [t[i]];
    }
    var p := open.value;
    assert t[p..p + 1][0] == t[p];
    var after := if p < i then i else j;
    assert p < after < |t| && t[after] == '"';
    var close := NextQuoteOrNewline(t, p + 1);
    assert close.Some?;
    assert t[close.value] in t;
  }

  /** The label is the first double-quoted part: text before it without a
      quote, then a quoted part without quote or newline. */
  lemma QuotedLabelOf(head: string, body: string, tail: string)
    requires '"' !in head && '"' !in body && '\n' !in body
    ensures QuotedLabel(head + "\"" + body + "\"" + tail) == Some(body)
  {
    var t := head + "\"" + body + "\"" + tail;
    var i := |head|;
    var j := |head| + 1 + |body|;
    forall k | 0 <= k < i ensures t[k] != '"' {
      assert t[k] == head[k];
    }
    forall k | i < k < j ensures t[k] != '"' && t[k] != '\n' {
      assert t[k] == body[k - i - 1];
    }
    QuotedLabelIs(t, i, j);
    assert t[i + 1..j] == body;
  }

  /** The label the script takes from a bug-task title written as the service
      writes it is the bug's own title, provided neither the bug title nor
      the target name contains a quote or a newline. */
  lemma TaskTitleLabel(b: LaunchpadHelper.Bug, task: LaunchpadHelper.Task)
    requires '"' !in LaunchpadHelper.TargetName(task.target) && '"' !in b.title && '\n' !in b.title
    ensures QuotedLabel(LaunchpadHelper.TaskTitle(b, task)) == Some(b.title)
  {
    var digits := DecimalString(b.id);
    var head := "Bug #" + digits + " in " + LaunchpadHelper.TargetName(task.target) + ": ";
    assert '"' !in digits by {
      forall k | 0 <= k < |digits| ensures digits[k] != '"' {
      }
    }
    assert '"' !in head;
    assert LaunchpadHelper.TaskTitle(b, task) == head + "\"" + b.title + "\"" + "";
    QuotedLabelOf(head, b.title, "");
  }

  /** One iteration of the inner loop, after the failure-rate section (which
      is only printed) has been computed: a bug already in the table gets
      the CID appended; a new bug gets a record whose title is the label of
      its task title, or the label left in `content` by an earlier bug when
      its title has none; with no label at all the script fails. */
  function Step(st: State, project: string, cid: string, h: Hit): (r: Result<State, ScriptError>)
    ensures r.Success? <==> h.number in st.table.records || QuotedLabel(h.title).Some? || st.content.Some?
    ensures r.Failure? ==> r.error == NameError("content")
  {
    var t := st.table;
    if h.number in t.records then
      var rec := t.records[h.number];
      Success(State(Table(t.order, t.records[h.number := rec.(cids := rec.cids + [cid])]), st.content))
    else
      var content := if QuotedLabel(h.title).Some? then QuotedLabel(h.title) else st.content;
      if content.None? then Failure(NameError("content"))
      else
        var rec := Record(BugLink(project, h.number), content.value, [cid]);
        Success(State(Table(t.order + [h.number], t.records[h.number := rec]), content))
  }

  /** A step keeps every existing record's link and title, adds the bug's
      number to the keys, and succeeds whenever the bug is already known or
      its task title carries a label, which then titles its new record. */
  lemma StepTitles(st: State, project: string, cid: string, h: Hit)
    ensures h.number in st.table.records || QuotedLabel(h.title).Some? ==> Step(st, project, cid, h).Success?
    ensures h.number in st.table.records ==> Step(st, project, cid, h).value.content == st.content
    ensures Step(st, project, cid, h).Success? && h.number !in st.table.records ==>
              var next := Step(st, project, cid, h).value;
              && next.table.order == st.table.order + [h.number]
              && next.content == (if QuotedLabel(h.title).Some? then QuotedLabel(h.title) else st.content)
              && next.content.Some?
              && next.table.records[h.number] == Record(BugLink(project, h.number), next.content.value, [cid])
    ensures Step(st, project, cid, h).Success? ==>
              var next := Step(st, project, cid, h).value.table.records;
              && next.Keys == st.table.records.Keys + {h.number}
              && (forall n :: n in st.table.records ==>
                    next[n].link == st.table.records[n].link && next[n].title == st.table.records[n].title)
              && (h.number !in st.table.records && QuotedLabel(h.title).Some? ==>
                    Some(next[h.number].title) == QuotedLabel(h.title))
  {
  }

  function Last<T>(s: seq<T>): T
    requires s != []
  {
    s[|s| - 1]
  }

  function Front<T>(s: seq<T>): seq<T>
    requires s != []
  {
    s[..|s| - 1]
  }

  /** The script's state after processing the matches `ms` in order. */
  function Run(project: string, ms: seq<Match>): (r: Result<State, ScriptError>)
    ensures r.Failure? ==> r.error == NameError("content")
    ensures r.Success? && r.value.content.None? ==> r.value.table.order == []
  {
    if ms == [] then Success(Initial)
    else
      match Run(project, Front(ms))
      case Failure(e) => Failure(e)
      case Success(st) => Step(st, project, Last(ms).cid, Last(ms).hit)
  }

  /** The `(cid, bug)` pairs for one CID's search, in order. */
  function Pairs(s: Search): (r: seq<Match>)
    ensures |r| == |s.hits|
    ensures forall k :: 0 <= k < |r| ==> r[k] == Match(s.cid, s.hits[k])
  {
    seq(|s.hits|, k requires 0 <= k < |s.hits| => Match(s.cid, s.hits[k]))
  }

  /** All `(cid, bug)` pairs in the order the nested loops visit them. */
  function Matches(searches: seq<Search>): seq<Match> {
    if searches == [] then [] else Matches(Front(searches)) + Pairs(Last(searches))
  }

  /** The bug numbers among the matches. */
  function Numbers(ms: seq<Match>): set<nat> {
    if ms == [] then {} else Numbers(Front(ms)) + {Last(ms).hit.number}
  }

  /** The distinct bug numbers in the order they first appear. */
  function FirstSeen(ms: seq<Match>): seq<nat> {
    if ms == [] then []
    else if Last(ms).hit.number in Numbers(Front(ms)) then FirstSeen(Front(ms))
    else FirstSeen(Front(ms)) + [Last(ms).hit.number]
  }

  /** The CIDs of the matches on bug `n`, in the order they were processed. */
  function CidsFor(ms: seq<Match>, n: nat): seq<string> {
    if ms == [] then []
    else CidsFor(Front(ms), n) + (if Last(ms).hit.number == n then [Last(ms).cid] else [])
  }

  predicate Distinct(s: seq<nat>) {
    forall a, b :: 0 <= a < b < |s| ==> s[a] != s[b]
  }

  /** The number of CID entries over the records listed in `order`. */
  function CidCount(order: seq<nat>, records: map<nat, Record>): nat {
    if order == [] then 0
    else CidCount(Front(order), records) + (if Last(order) in records then |records[Last(order)].cids| else 0)
  }

  lemma {:induction false} CidCountFrame(order: seq<nat>, records: map<nat, Record>, n: nat, rec: Record)
    requires n !in order
    ensures CidCount(order, records[n := rec]) == CidCount(order, records)
  {
    if order != [] {
      CidCountFrame(Front(order), records, n, rec);
    }
  }

  lemma {:induction false} CidCountAppend(order: seq<nat>, records: map<nat, Record>, n: nat, cid: string)
    requires Distinct(order) && n in order && n in records
    ensures CidCount(order, records[n := records[n].(cids := records[n].cids + [cid])])
            == CidCount(order, records) + 1
  {
    var rec := records[n].(cids := records[n].cids + [cid]);
    if Last(order) == n {
      assert n !in Front(order);
      CidCountFrame(Front(order), records, n, rec);
    } else {
      assert n in Front(order);
      CidCountAppend(Front(order), records, n, cid);
    }
  }

  /** A successful run is its successful prefix followed by one step. */
  lemma RunUnfold(project: string, ms: seq<Match>, st: State)
    requires ms != [] && Run(project, ms) == Success(st)
    ensures Run(project, Front(ms)).Success?
    ensures Step(Run(project, Front(ms)).value, project, Last(ms).cid, Last(ms).hit) == Success(st)
  {
  }

  /** The numbers in first-seen order are each listed once, and they are
      exactly the numbers seen. */
  lemma {:induction false} FirstSeenDistinct(ms: seq<Match>)
    ensures Distinct(FirstSeen(ms))
    ensures forall n :: n in FirstSeen(ms) <==> n in Numbers(ms)
  {
    if ms != [] {
      FirstSeenDistinct(Front(ms));
    }
  }

  lemma {:induction false} CidsForUnseen(ms: seq<Match>, n: nat)
    requires n !in Numbers(ms)
    ensures CidsFor(ms, n) == []
  {
    if ms != [] {
      CidsForUnseen(Front(ms), n);
    }
  }

  /** The keys of `lp_api_return` are the bug numbers seen, inserted in the
      order they were first seen. */
  lemma {:induction false} RunKeys(project: string, ms: seq<Match>, st: State)
    requires Run(project, ms) == Success(st)
    ensures st.table.order == FirstSeen(ms)
    ensures st.table.records.Keys == Numbers(ms)
  {
    if ms != [] {
      RunUnfold(project, ms, st);
      RunKeys(project, Front(ms), Run(project, Front(ms)).value);
    }
  }

  /** Each record's link is the bug's link and its CID list holds the CIDs
      of the matches on that bug, in the order they were processed. */
  lemma {:induction false} RunRecords(project: string, ms: seq<Match>, st: State)
    requires Run(project, ms) == Success(st)
    ensures forall n :: n in st.table.records ==>
              st.table.records[n].link == BugLink(project, n) && st.table.records[n].cids == CidsFor(ms, n)
  {
    if ms != [] {
      RunUnfold(project, ms, st);
      var prev := Run(project, Front(ms)).value;
      RunRecords(project, Front(ms), prev);
      RunKeys(project, Front(ms), prev);
      var m := Last(ms);
      var t := prev.table;
      if m.hit.number in t.records {
        var rec := t.records[m.hit.number];
        assert st.table.records == t.records[m.hit.number := rec.(cids := rec.cids + [m.cid])];
      } else {
        CidsForUnseen(Front(ms), m.hit.number);
        StepTitles(prev, project, m.cid, m.hit);
      }
    }
  }

  /** The table holds one CID entry per match processed. */
  lemma {:induction false} RunCount(project: string, ms: seq<Match>, st: State)
    requires Run(project, ms) == Success(st)
    ensures CidCount(st.table.order, st.table.records) == |ms|
  {
    if ms != [] {
      RunUnfold(project, ms, st);
      var prev := Run(project, Front(ms)).value;
      RunCount(project, Front(ms), prev);
      RunKeys(project, Front(ms), prev);
      FirstSeenDistinct(Front(ms));
      var m := Last(ms);
      var t := prev.table;
      if m.hit.number in t.records {
        CidCountAppend(t.order, t.records, m.hit.number, m.cid);
      } else {
        assert Front(t.order + [m.hit.number]) == t.order;
        CidCountFrame(t.order, t.records, m.hit.number, st.table.records[m.hit.number]);
      }
    }
  }

  /** What a successful run leaves in `lp_api_return`: exactly one record per
      distinct bug number seen, in first-seen order; each record's link is
      the bug's link and its CID list the CIDs that matched the bug, in the
      order processed; and the table holds one CID entry per match. */
  lemma RunTable(project: string, ms: seq<Match>, st: State)
    requires Run(project, ms) == Success(st)
    ensures st.table.order == FirstSeen(ms) && Distinct(st.table.order)
    ensures st.table.records.Keys == Numbers(ms)
    ensures forall n :: n in st.table.order <==> n in st.table.records
    ensures forall n :: n in st.table.records ==>
              st.table.records[n].link == BugLink(project, n) && st.table.records[n].cids == CidsFor(ms, n)
    ensures CidCount(st.table.order, st.table.records) == |ms|
  {
    RunKeys(project, ms, st);
    FirstSeenDistinct(ms);
    RunRecords(project, ms, st);
    RunCount(project, ms, st);
  }

  /** A bug matched again keeps its link and title; only the current CID is
      appended to its list, no other record changes and `content` keeps the
      last label found. */
  lemma RepeatOnlyAppends(project: string, ms: seq<Match>, m: Match, before: State, after: State)
    requires Run(project, ms) == Success(before) && Run(project, ms + [m]) == Success(after)
    requires m.hit.number in before.table.records
    ensures after.content == before.content
    ensures after.table.order == before.table.order
    ensures after.table.records.Keys == before.table.records.Keys
    ensures after.table.records[m.hit.number] == before.table.records[m.hit.number].(
              cids := before.table.records[m.hit.number].cids + [m.cid])
    ensures forall n :: n in before.table.records && n != m.hit.number ==>
              after.table.records[n] == before.table.records[n]
  {
    assert Front(ms + [m]) == ms;
  }

  /** The first title among the matches on bug `n`. */
  function FirstTitle(ms: seq<Match>, n: nat): string
    requires n in Numbers(ms)
  {
    if n in Numbers(Front(ms)) then FirstTitle(Front(ms), n) else Last(ms).hit.title
  }

  predicate AllLabelled(ms: seq<Match>) {
    forall k :: 0 <= k < |ms| ==> QuotedLabel(ms[k].hit.title).Some?
  }

  /** When every task title carries a quoted label, the script does not fail
      and each record's title is the label of the first title seen for it. */
  lemma {:induction false} RunLabelled(project: string, ms: seq<Match>)
    requires AllLabelled(ms)
    ensures Run(project, ms).Success?
    ensures forall n :: n in Run(project, ms).value.table.records ==>
              n in Numbers(ms) && QuotedLabel(FirstTitle(ms, n)) == Some(Run(project, ms).value.table.records[n].title)
  {
    if ms != [] {
      assert AllLabelled(Front(ms)) by {
        forall k | 0 <= k < |Front(ms)| ensures QuotedLabel(Front(ms)[k].hit.title).Some? {
          assert Front(ms)[k] == ms[k];
        }
      }
      RunLabelled(project, Front(ms));
      var prev := Run(project, Front(ms)).value;
      RunKeys(project, Front(ms), prev);
      var m := Last(ms);
      assert QuotedLabel(m.hit.title).Some?;
      StepTitles(prev, project, m.cid, m.hit);
      assert Run(project, ms) == Step(prev, project, m.cid, m.hit);
    }
  }

  /** The same run with different descriptions: the failure-rate text never
      reaches the table. */
  predicate SameButDescriptions(ms: seq<Match>, ms': seq<Match>) {
    |ms| == |ms'| && forall k :: 0 <= k < |ms| ==>
      ms[k].cid == ms'[k].cid && ms[k].hit.number == ms'[k].hit.number && ms[k].hit.title == ms'[k].hit.title
  }

  lemma {:induction false} DescriptionsIgnored(project: string, ms: seq<Match>, ms': seq<Match>)
    requires SameButDescriptions(ms, ms')
    ensures Run(project, ms) == Run(project, ms')
  {
    if ms != [] {
      assert SameButDescriptions(Front(ms), Front(ms')) by {
        forall k | 0 <= k < |Front(ms)|
          ensures Front(ms)[k].cid == Front(ms')[k].cid && Front(ms)[k].hit.number == Front(ms')[k].hit.number
                  && Front(ms)[k].hit.title == Front(ms')[k].hit.title
        {
          assert Front(ms)[k] == ms[k] && Front(ms')[k] == ms'[k];
        }
      }
      DescriptionsIgnored(project, Front(ms), Front(ms'));
    }
  }

  /** Once the script has failed, later matches do not revive it. */
  lemma {:induction false} FailureStops(project: string, ms: seq<Match>, rest: seq<Match>)
    requires Run(project, ms).Failure?
    ensures Run(project, ms + rest) == Run(project, ms)
  {
    if rest == [] {
      assert ms + rest == ms;
    } else {
      FailureStops(project, ms, Front(rest));
      var whole := ms + rest;
      assert whole != [] && Front(whole) == ms + Front(rest);
      assert Run(project, Front(whole)) == Run(project, ms);
      assert Run(project, whole) == Run(project, Front(whole));
    }
  }

  lemma {:induction false} MatchesAppend(a: seq<Search>, b: seq<Search>)
    ensures Matches(a + b) == Matches(a) + Matches(b)
  {
    if b == [] {
      assert a + b == a;
    } else {
      MatchesAppend(a, Front(b));
      var whole := a + b;
      assert whole != [] && Front(whole) == a + Front(b) && Last(whole) == Last(b);
      assert Matches(whole) == Matches(a + Front(b)) + Pairs(Last(b));
      assert Matches(whole) == Matches(a) + (Matches(Front(b)) + Pairs(Last(b)));
    }
  }

  /** Running one more match is one more step after the run so far. */
  lemma RunSnoc(project: string, done: seq<Match>, m: Match)
    ensures Run(project, done).Failure? ==> Run(project, done + [m]) == Run(project, done)
    ensures Run(project, done).Success? ==>
              Run(project, done + [m]) == Step(Run(project, done).value, project, m.cid, m.hit)
  {
    assert Front(done + [m]) == done;
  }

  lemma PairsAppend(cid: string, left: seq<Hit>, right: seq<Hit>)
    ensures Pairs(Search(cid, left + right)) == Pairs(Search(cid, left)) + Pairs(Search(cid, right))
  {
    var all := Pairs(Search(cid, left + right));
    var parts := Pairs(Search(cid, left)) + Pairs(Search(cid, right));
    assert |all| == |parts|;
    forall k | 0 <= k < |all| ensures all[k] == parts[k] {
      if k < |left| {
        assert parts[k] == Match(cid, left[k]);
      } else {
        assert parts[k] == Match(cid, right[k - |left|]);
      }
    }
  }

  lemma MatchesSnoc(done: seq<Search>, s: Search)
    ensures Matches(done + [s]) == Matches(done) + Pairs(s)
  {
    assert Front(done + [s]) == done && Last(done + [s]) == s;
  }

  lemma SplitAt<T>(s: seq<T>, i: nat)
    requires i < |s|
    ensures s[..i + 1] == s[..i] + [s[i]] && s[..i + 1] + s[i + 1..] == s
  {
  }

  /** The matches of the searches before `i`, of search `i`, and after it. */
  lemma MatchesAt(searches: seq<Search>, i: nat)
    requires i < |searches|
    ensures Matches(searches) == (Matches(searches[..i]) + Pairs(searches[i])) + Matches(searches[i + 1..])
  {
    SplitAt(searches, i);
    MatchesSnoc(searches[..i], searches[i]);
    MatchesAppend(searches[..i + 1], searches[i + 1..]);
  }

  /** The matches seen so far, up to hit `j` of search `i`, then the rest. */
  lemma MatchesSplit(searches: seq<Search>, i: nat, j: nat)
    requires i < |searches| && j < |searches[i].hits|
    ensures Matches(searches) ==
              (Matches(searches[..i]) + Pairs(Search(searches[i].cid, searches[i].hits[..j + 1])))
              + (Pairs(Search(searches[i].cid, searches[i].hits[j + 1..])) + Matches(searches[i + 1..]))
  {
    var s := searches[i];
    MatchesAt(searches, i);
    SplitAt(s.hits, j);
    assert s == Search(s.cid, s.hits[..j + 1] + s.hits[j + 1..]);
    PairsAppend(s.cid, s.hits[..j + 1], s.hits[j + 1..]);
    var done := Matches(searches[..i]);
    var left := Pairs(Search(s.cid, s.hits[..j + 1]));
    var right := Pairs(Search(s.cid, s.hits[j + 1..]));
    var rest := Matches(searches[i + 1..]);
    assert Matches(searches) == (done + (left + right)) + rest;
  }

  /** The script as written: nested loops over the CIDs and the bugs each
      search returned, updating `lp_api_return` in place; it computes the
      table `Run` describes, and fails exactly when `Run` does. */
  method Correlate(project: string, searches: seq<Search>) returns (r: Result<Table, ScriptError>)
    ensures Run(project, Matches(searches)).Success? ==> r == Success(Run(project, Matches(searches)).value.table)
    ensures Run(project, Matches(searches)).Failure? ==> r == Failure(Run(project, Matches(searches)).error)
  {
    var order: seq<nat> := [];
    var records: map<nat, Record> := map[];
    var content: Option<string> := None;
    var i := 0;
    while i < |searches|
      invariant 0 <= i <= |searches|
      invariant Run(project, Matches(searches[..i])) == Success(State(Table(order, records), content))
    {
      var cid := searches[i].cid;
      var hits := searches[i].hits;
      var j := 0;
      assert Matches(searches[..i]) + Pairs(Search(cid, hits[..0])) == Matches(searches[..i]);
      while j < |hits|
        invariant 0 <= j <= |hits|
        invariant Run(project, Matches(searches[..i]) + Pairs(Search(cid, hits[..j])))
                  == Success(State(Table(order, records), content))
      {
        var h := hits[j];
        ghost var done := Matches(searches[..i]) + Pairs(Search(cid, hits[..j]));
        ghost var before := State(Table(order, records), content);
        SplitAt(hits, j);
        PairsAppend(cid, hits[..j], [h]);
        assert Pairs(Search(cid, [h])) == [Match(cid, h)];
        assert done + [Match(cid, h)] == Matches(searches[..i]) + Pairs(Search(cid, hits[..j + 1]));
        RunSnoc(project, done, Match(cid, h));
        var additionalInfo := FailureRateSection(h.description);
        var url := BugLink(project, h.number);
        if h.number in records {
          records := records[h.number := records[h.number].(cids := records[h.number].cids + [cid])];
        } else {
          var quoted := QuotedLabel(h.title);
          if quoted.Some? {
            content := quoted;
          }
          if content.None? {
            MatchesSplit(searches, i, j);
            FailureStops(project, done + [Match(cid, h)],
                         Pairs(Search(cid, hits[j + 1..])) + Matches(searches[i + 1..]));
            return Failure(NameError("content"));
          }
          records := records[h.number := Record(url, content.value, [cid])];
          order := order + [h.number];
        }
        assert Step(before, project, cid, h) == Success(State(Table(order, records), content));
        j := j + 1;
      }
      assert hits[..j] == hits && Search(cid, hits) == searches[i];
      SplitAt(searches, i);
      MatchesSnoc(searches[..i], searches[i]);
      i := i + 1;
    }
    assert searches[..i] == searches;
    r := Success(Table(order, records));
  }

  /** A bug first seen with no quoted title takes the label of the previous
      new bug: its record is titled with the other bug's label. */
  lemma StaleTitle(project: string, c0: string, h0: Hit, c1: string, h1: Hit)
    requires h0.number != h1.number
    requires QuotedLabel(h0.title).Some? && QuotedLabel(h1.title).None?
    ensures Run(project, [Match(c0, h0), Match(c1, h1)]).Success?
    ensures Some(Run(project, [Match(c0, h0), Match(c1, h1)]).value.table.records[h1.number].title)
            == QuotedLabel(h0.title)
  {
    var m0 := Match(c0, h0);
    var m1 := Match(c1, h1);
    var s1 := Step(Initial, project, c0, h0);
    assert s1.Success? && s1.value.content == QuotedLabel(h0.title) && h1.number !in s1.value.table.records;
    RunSnoc(project, [], m0);
    assert [] + [m0] == [m0];
    RunSnoc(project, [m0], m1);
    assert [m0] + [m1] == [m0, m1];
  }

  /** The first bug seen with no quoted title stops the script with a
      `NameError` on `content`. */
  lemma UnboundTitle(project: string, cid: string, h: Hit)
    requires QuotedLabel(h.title).None?
    ensures Run(project, [Match(cid, h)]) == Failure(NameError("content"))
  {
    RunSnoc(project, [], Match(cid, h));
    assert [] + [Match(cid, h)] == [Match(cid, h)];
  }
}
