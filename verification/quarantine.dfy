/** Blacklist decisions, and the quarantine they put installed scripts into. */
module Quarantine {
  import StableSort
  import opened TextOrder
  import opened Wrappers

  // ---- decisions -------------------------------------------------------------------

  datatype Severity = Low | Medium | High | Critical

  datatype Scope = RepositoryScope | PublisherScope | DomainScope | ScriptScope | PackageScope

  /** `details` is what is only copied: advisory, dates, reason and title. */
  datatype Entry = Entry(id: string, severity: Severity, scope: Scope, target: string, details: string)

  datatype Subject = Subject(packageHash: Option<string>, scriptId: Option<string>, trustedUrls: seq<string>)

  /** Whether an entry matches a subject. */
  type Matching = (Entry, Subject) -> bool

  datatype Decision = Decision(entries: seq<Entry>, severity: Option<Severity>)

  function Rank(severity: Severity): nat {
    match severity case Low => 0 case Medium => 1 case High => 2 case Critical => 3
  }

  function Matches(entries: seq<Entry>, subject: Subject, matching: Matching): seq<Entry> {
    if entries == [] then []
    else
      var init := Matches(entries[..|entries| - 1], subject, matching);
      var last := entries[|entries| - 1];
      if matching(last, subject) then init + [last] else init
  }

  /** Worst first, then by id. */
  predicate Worse(a: Entry, b: Entry) {
    Rank(a.severity) > Rank(b.severity) || (a.severity == b.severity && TextLess(a.id, b.id))
  }

  /** Drops an entry that follows one with the same id. */
  function Dedup(entries: seq<Entry>): seq<Entry> {
    if |entries| <= 1 then entries
    else
      var init := Dedup(entries[..|entries| - 1]);
      var last := entries[|entries| - 1];
      if init != [] && init[|init| - 1].id == last.id then init else init + [last]
  }

  function MaxSeverity(entries: seq<Entry>): Option<Severity> {
    if entries == [] then None
    else
      var init := MaxSeverity(entries[..|entries| - 1]);
      var last := entries[|entries| - 1].severity;
      if init.Some? && Rank(init.value) > Rank(last) then init else Some(last)
  }

  function FromEntries(entries: seq<Entry>): Decision {
    var kept := Dedup(StableSort.Sort(entries, Worse));
    Decision(kept, MaxSeverity(kept))
  }

  predicate AtLeast(decision: Decision, severity: Severity) {
    decision.severity.Some? && Rank(decision.severity.value) >= Rank(severity)
  }

  predicate BlocksDistribution(decision: Decision) {
    AtLeast(decision, Medium)
  }

  predicate BlocksExecution(decision: Decision) {
    AtLeast(decision, High)
  }

  predicate RequestsCancellation(decision: Decision) {
    AtLeast(decision, Critical)
  }

  lemma {:induction false} MaxSeverityMeans(entries: seq<Entry>, severity: Severity)
    ensures MaxSeverity(entries).Some? && Rank(MaxSeverity(entries).value) >= Rank(severity)
       <==> exists e :: e in entries && Rank(e.severity) >= Rank(severity)
  {
    if entries != [] {
      var init := entries[..|entries| - 1];
      MaxSeverityMeans(init, severity);
      assert entries == init + [entries[|entries| - 1]];
      assert entries[|entries| - 1] in entries;
      assert forall e | e in entries :: e in init || e == entries[|entries| - 1];
    }
  }

  lemma {:induction false} DedupMembers(entries: seq<Entry>)
    ensures forall e | e in Dedup(entries) :: e in entries
    ensures |entries| >= 1 ==> |Dedup(entries)| >= 1 && Dedup(entries)[0] == entries[0]
  {
    if |entries| > 1 {
      var init := entries[..|entries| - 1];
      DedupMembers(init);
      assert entries == init + [entries[|entries| - 1]];
    }
  }

  lemma {:induction false} DedupIds(entries: seq<Entry>)
    ensures forall e | e in entries :: HasId(Dedup(entries), e.id)
  {
    if |entries| > 1 {
      var init := entries[..|entries| - 1];
      var last := entries[|entries| - 1];
      var before, after := Dedup(init), Dedup(entries);
      DedupIds(init);
      assert entries == init + [last];
      assert before <= after && after[|after| - 1].id == last.id;
      hide Dedup;
      forall e | e in entries ensures HasId(after, e.id) {
        if e in init {
          var i :| 0 <= i < |before| && before[i].id == e.id;
          assert after[i].id == e.id;
        }
      }
    } else if |entries| == 1 {
      assert Dedup(entries)[0].id == entries[0].id;
    }
  }

  predicate HasId(entries: seq<Entry>, id: string) {
    exists i :: 0 <= i < |entries| && entries[i].id == id
  }

  lemma WorseIsByKey()
    ensures StableSort.ByKey(Worse)
  {
    forall a: Entry, b: Entry ensures Worse(a, b) ==> !Worse(b, a) {
      TextLessTotal(a.id, b.id);
    }
    forall a: Entry, b: Entry, c: Entry ensures !Worse(b, a) && !Worse(c, b) ==> !Worse(c, a) {
      TextLessTotal(a.id, b.id);
      TextLessTotal(b.id, c.id);
      TextLessTotal(a.id, c.id);
      if TextLess(a.id, b.id) && TextLess(b.id, c.id) {
        TextLessTransitive(a.id, b.id, c.id);
      }
    }
  }

  /** A decision is as severe as the worst entry it was made from, whatever was dropped as a repetition,
      and names each of their ids. */
  lemma DecisionIsTheWorst(entries: seq<Entry>, severity: Severity)
    ensures AtLeast(FromEntries(entries), severity) <==> exists e :: e in entries && Rank(e.severity) >= Rank(severity)
    ensures forall e | e in FromEntries(entries).entries :: e in entries
    ensures forall e | e in entries :: HasId(FromEntries(entries).entries, e.id)
  {
    hide TextLess, Rank;
    var sorted := StableSort.Sort(entries, Worse);
    StableSort.SortMembers(entries, Worse);
    WorseIsByKey();
    StableSort.SortSorts(entries, Worse);
    DedupMembers(sorted);
    DedupIds(sorted);
    MaxSeverityMeans(Dedup(sorted), severity);
    if e :| e in entries && Rank(e.severity) >= Rank(severity) {
      assert e in sorted;
      var i :| 0 <= i < |sorted| && sorted[i] == e;
      assert i > 0 ==> !Worse(sorted[i], sorted[0]);
      assert sorted[0] in Dedup(sorted);
    }
  }

  /** Each entry is worse than all that follow it, so none is named twice. */
  ghost predicate WorstFirst(entries: seq<Entry>) {
    forall i, j :: 0 <= i < j < |entries| ==> Worse(entries[i], entries[j])
  }

  lemma {:induction false} DedupStrict(entries: seq<Entry>)
    requires StableSort.Sorted(entries, Worse)
    ensures WorstFirst(Dedup(entries))
  {
    if |entries| > 1 {
      var init, last := entries[..|entries| - 1], entries[|entries| - 1];
      DedupStrict(init);
      DedupMembers(init);
      var kept := Dedup(init);
      hide TextLess, Worse;
      if kept[|kept| - 1].id != last.id {
        forall i | 0 <= i < |kept| ensures Worse(kept[i], last) {
          InitIsNotAfter(entries, kept[i]);
          InitIsNotAfter(entries, kept[|kept| - 1]);
          StrictlyBefore(kept[i], kept[|kept| - 1], last, i == |kept| - 1);
        }
      }
    }
  }

  lemma InitIsNotAfter(entries: seq<Entry>, e: Entry)
    requires entries != [] && StableSort.Sorted(entries, Worse) && e in entries[..|entries| - 1]
    ensures !Worse(entries[|entries| - 1], e)
  {
  }

  /** What does not come before the last kept entry, and has not its id, comes after all that are kept. */
  lemma StrictlyBefore(a: Entry, b: Entry, last: Entry, same: bool)
    requires if same then a == b else Worse(a, b)
    requires !Worse(last, a) && !Worse(last, b) && b.id != last.id
    ensures Worse(a, last)
  {
    TextLessTotal(a.id, last.id);
    TextLessTotal(b.id, last.id);
  }

  /** A decision names the worst entries first, and no entry of one severity twice. */
  lemma DecisionIsInOrder(entries: seq<Entry>)
    ensures WorstFirst(FromEntries(entries).entries)
  {
    WorseIsByKey();
    StableSort.SortSorts(entries, Worse);
    DedupStrict(StableSort.Sort(entries, Worse));
  }

  // ---- whose decision --------------------------------------------------------------

  datatype Provenance = Provenance(repositoryUrl: Option<string>, packageUrls: seq<string>,
        finalPackageUrl: Option<string>)

  datatype Incident = Incident(entry: Entry, recordedAt: nat, repositoryUrl: Option<string>, scriptId: Option<string>)

  datatype State = State(
    entries: seq<Entry>,
    incidents: seq<Incident>,
    provenance: map<string, Provenance>,
    repositoryProvenance: map<string, seq<string>>,
    quarantined: set<string>)

  function UrlsOf(state: State, provenance: Provenance): seq<string> {
    (if provenance.repositoryUrl.None? then []
     else [provenance.repositoryUrl.value]
          + (if provenance.repositoryUrl.value in state.repositoryProvenance
             then state.repositoryProvenance[provenance.repositoryUrl.value] else []))
    + provenance.packageUrls
    + (if provenance.finalPackageUrl.Some? then [provenance.finalPackageUrl.value] else [])
  }

  /** What `decide` asks about: the subject with the trusted addresses of its script. */
  function Expanded(state: State, subject: Subject): Subject {
    if subject.scriptId.Some? && subject.scriptId.value in state.provenance
    then subject.(trustedUrls := subject.trustedUrls + UrlsOf(state, state.provenance[subject.scriptId.value]))
    else subject
  }

  function Decide(state: State, subject: Subject, matching: Matching): Decision {
    FromEntries(Matches(state.entries, Expanded(state, subject), matching))
  }

  function Installed(id: string, hash: string): Subject {
    Subject(Some(hash), Some(id), [])
  }

  /** What the quarantine and `script_decision` ask about. */
  function ScriptSubject(state: State, id: string, hash: string): Subject {
    if id in state.provenance then Installed(id, hash).(trustedUrls := UrlsOf(state, state.provenance[id]))
    else Installed(id, hash)
  }

  function ScriptDecision(state: State, id: string, hash: string, matching: Matching): Decision {
    FromEntries(Matches(state.entries, ScriptSubject(state, id, hash), matching))
  }

  function RepositoryDecision(state: State, url: string, matching: Matching): Decision {
    FromEntries(Matches(state.entries, Subject(None, None, [url]), matching))
  }

  /** The policy's decision about an installed script, the service's and the quarantine's are one. */
  lemma OneDecision(state: State, id: string, hash: string, matching: Matching)
    ensures Decide(state, Installed(id, hash), matching) == ScriptDecision(state, id, hash, matching)
  {
    if id in state.provenance {
      assert [] + UrlsOf(state, state.provenance[id]) == UrlsOf(state, state.provenance[id]);
    }
  }

  // ---- incidents -------------------------------------------------------------------

  const MAX_INCIDENTS := 1000

  /** The incident already on record for the same entry and the same repository or script. */
  predicate SameMatter(a: Incident, b: Incident) {
    a.entry.id == b.entry.id
    && if b.repositoryUrl.Some? then a.repositoryUrl == b.repositoryUrl else a.scriptId == b.scriptId
  }

  predicate OnRecord(incidents: seq<Incident>, wanted: Incident) {
    exists i :: 0 <= i < |incidents| && SameMatter(incidents[i], wanted)
  }

  function Record(incidents: seq<Incident>, wanted: seq<Incident>): seq<Incident> {
    if wanted == [] then incidents
    else
      var before := Record(incidents, wanted[..|wanted| - 1]);
      var last := wanted[|wanted| - 1];
      if OnRecord(before, last) then before else before + [last]
  }

  /** Newest first, later ids first. */
  predicate Newer(a: Incident, b: Incident) {
    a.recordedAt > b.recordedAt || (a.recordedAt == b.recordedAt && TextLess(b.entry.id, a.entry.id))
  }

  function Latest(incidents: seq<Incident>): seq<Incident> {
    var sorted := StableSort.Sort(incidents, Newer);
    if |sorted| <= MAX_INCIDENTS then sorted else sorted[..MAX_INCIDENTS]
  }

  /** No two incidents about the same entry and the same repository, or the same entry and script. */
  ghost predicate NoRepeats(incidents: seq<Incident>) {
    forall i, j :: 0 <= i < j < |incidents| ==> Distinct(incidents[i], incidents[j])
  }

  ghost predicate Distinct(a: Incident, b: Incident) {
    a.entry.id == b.entry.id ==>
      && !(a.repositoryUrl.Some? && a.repositoryUrl == b.repositoryUrl)
      && !(a.scriptId.Some? && a.scriptId == b.scriptId)
  }

  /** Incidents are about one repository or one script. */
  predicate AboutOne(incident: Incident) {
    incident.repositoryUrl.Some? != incident.scriptId.Some?
  }

  lemma {:induction false} RecordMeans(incidents: seq<Incident>, wanted: seq<Incident>)
    requires forall w | w in wanted :: AboutOne(w)
    ensures incidents <= Record(incidents, wanted)
    ensures forall w | w in wanted :: OnRecord(Record(incidents, wanted), w)
    ensures forall x | x in Record(incidents, wanted) :: x in incidents || x in wanted
    ensures NoRepeats(incidents) ==> NoRepeats(Record(incidents, wanted))
  {
    if wanted != [] {
      var init := wanted[..|wanted| - 1];
      var last := wanted[|wanted| - 1];
      RecordMeans(incidents, init);
      assert wanted == init + [last] && last in wanted;
      var before := Record(incidents, init);
      var after := Record(incidents, wanted);
      forall w | w in wanted ensures OnRecord(after, w) {
        if w in init {
          var i :| 0 <= i < |before| && SameMatter(before[i], w);
          assert SameMatter(after[i], w);
        } else if !OnRecord(before, last) {
          assert SameMatter(after[|before|], w);
        }
      }
    }
  }

  lemma NewerIsByKey()
    ensures StableSort.ByKey(Newer)
  {
    forall a: Incident, b: Incident ensures Newer(a, b) ==> !Newer(b, a) {
      TextLessTotal(a.entry.id, b.entry.id);
    }
    forall a: Incident, b: Incident, c: Incident ensures !Newer(b, a) && !Newer(c, b) ==> !Newer(c, a) {
      TextLessTotal(a.entry.id, b.entry.id);
      TextLessTotal(b.entry.id, c.entry.id);
      TextLessTotal(a.entry.id, c.entry.id);
      if TextLess(c.entry.id, b.entry.id) && TextLess(b.entry.id, a.entry.id) {
        TextLessTransitive(c.entry.id, b.entry.id, a.entry.id);
      }
    }
  }

  /** The incidents kept are at most a thousand, newest first, and none left out is newer than one kept. */
  lemma LatestMeans(incidents: seq<Incident>)
    ensures var sorted := StableSort.Sort(incidents, Newer);
            && |sorted| == |incidents| && multiset(sorted) == multiset(incidents)
            && Latest(incidents) <= sorted
            && |Latest(incidents)| == (if |incidents| < MAX_INCIDENTS then |incidents| else MAX_INCIDENTS)
            && forall i, k :: 0 <= i < |Latest(incidents)| <= k < |sorted| ==> !Newer(sorted[k], Latest(incidents)[i])
    ensures StableSort.Sorted(Latest(incidents), Newer)
  {
    NewerIsByKey();
    StableSort.SortMembers(incidents, Newer);
    StableSort.SortSorts(incidents, Newer);
  }

  lemma {:induction false} InsertKeepsNoRepeats(x: Incident, sorted: seq<Incident>)
    requires NoRepeats(sorted) && forall y | y in sorted :: Distinct(x, y)
    ensures NoRepeats(StableSort.Insert(x, sorted, Newer))
  {
    if sorted != [] {
      InsertKeepsNoRepeats(x, sorted[1..]);
      StableSort.InsertMembers(x, sorted[1..], Newer);
      var rest := StableSort.Insert(x, sorted[1..], Newer);
      assert sorted[0] in sorted;
      forall j | 0 <= j < |rest| ensures Distinct(sorted[0], rest[j]) {
        assert rest[j] in multiset(rest);
        assert rest[j] == x || rest[j] in sorted[1..];
      }
    }
  }

  lemma {:induction false} SortKeepsNoRepeats(incidents: seq<Incident>)
    requires NoRepeats(incidents)
    ensures NoRepeats(StableSort.Sort(incidents, Newer))
  {
    if incidents != [] {
      var init := incidents[..|incidents| - 1];
      var last := incidents[|incidents| - 1];
      SortKeepsNoRepeats(init);
      StableSort.SortMembers(init, Newer);
      forall y | y in StableSort.Sort(init, Newer) ensures Distinct(last, y) {
        assert y in init;
        var i :| 0 <= i < |init| && init[i] == y;
        assert Distinct(incidents[i], last);
      }
      InsertKeepsNoRepeats(last, StableSort.Sort(init, Newer));
    }
  }

  // ---- the quarantine --------------------------------------------------------------

  datatype Script = Script(id: string, packageHash: string, enabled: bool)

  /** What an application reads besides the state: the configured repositories, how entries match, and
      the time at which each repository or script is looked at. */
  datatype Setting = Setting(repositories: seq<string>, matching: Matching, clock: string -> nat)

  function WantedFor(decision: Decision, now: nat, repository: Option<string>, script: Option<string>): seq<Incident> {
    if BlocksDistribution(decision)
    then seq(|decision.entries|, i requires 0 <= i < |decision.entries| =>
               Incident(decision.entries[i], now, repository, script))
    else []
  }

  function RepositoriesWanted(state: State, setting: Setting, count: nat): seq<Incident>
    requires count <= |setting.repositories|
  {
    if count == 0 then []
    else
      var url := setting.repositories[count - 1];
      RepositoriesWanted(state, setting, count - 1)
      + WantedFor(RepositoryDecision(state, url, setting.matching), setting.clock(url), Some(url), None)
  }

  function DecisionOf(state: State, setting: Setting, script: Script): Decision {
    ScriptDecision(state, script.id, script.packageHash, setting.matching)
  }

  function ScriptsWanted(state: State, setting: Setting, scripts: seq<Script>): seq<Incident> {
    if scripts == [] then []
    else
      var script := scripts[|scripts| - 1];
      ScriptsWanted(state, setting, scripts[..|scripts| - 1])
      + WantedFor(DecisionOf(state, setting, script), setting.clock(script.id), None, Some(script.id))
  }

  function AllWanted(state: State, setting: Setting, scripts: seq<Script>): seq<Incident> {
    RepositoriesWanted(state, setting, |setting.repositories|) + ScriptsWanted(state, setting, scripts)
  }

  function BlockedIds(state: State, setting: Setting, scripts: seq<Script>): set<string> {
    set i | 0 <= i < |scripts| && BlocksExecution(DecisionOf(state, setting, scripts[i])) :: scripts[i].id
  }

  function CriticalIds(state: State, setting: Setting, scripts: seq<Script>): set<string> {
    set i | 0 <= i < |scripts| && RequestsCancellation(DecisionOf(state, setting, scripts[i])) :: scripts[i].id
  }

  /** A script that may not run is disabled; any other stays as it is. */
  function Disabled(state: State, setting: Setting, script: Script): Script {
    if BlocksExecution(DecisionOf(state, setting, script)) then script.(enabled := false) else script
  }

  function DisabledAll(state: State, setting: Setting, scripts: seq<Script>): seq<Script> {
    seq(|scripts|, i requires 0 <= i < |scripts| => Disabled(state, setting, scripts[i]))
  }

  function Quarantined(state: State, setting: Setting, scripts: seq<Script>): State {
    state.(incidents := Latest(Record(state.incidents, AllWanted(state, setting, scripts))),
           quarantined := state.quarantined + BlockedIds(state, setting, scripts))
  }

  lemma {:induction false} WantedAboutOne(state: State, setting: Setting, scripts: seq<Script>)
    ensures forall w | w in ScriptsWanted(state, setting, scripts) :: w.scriptId.Some? && w.repositoryUrl.None?
  {
    if scripts != [] {
      WantedAboutOne(state, setting, scripts[..|scripts| - 1]);
    }
  }

  lemma {:induction false} RepositoriesAboutOne(state: State, setting: Setting, count: nat)
    requires count <= |setting.repositories|
    ensures forall w | w in RepositoriesWanted(state, setting, count) :: w.repositoryUrl.Some? && w.scriptId.None?
  {
    hide RepositoryDecision, BlocksDistribution;
    if count > 0 {
      RepositoriesAboutOne(state, setting, count - 1);
    }
  }

  /** A successful quarantine keeps incidents without repetitions, at most a thousand of them. */
  lemma QuarantineKeepsNoRepeats(state: State, setting: Setting, scripts: seq<Script>)
    requires NoRepeats(state.incidents)
    ensures NoRepeats(Quarantined(state, setting, scripts).incidents)
    ensures |Quarantined(state, setting, scripts).incidents| <= MAX_INCIDENTS
  {
    WantedAboutOne(state, setting, scripts);
    RepositoriesAboutOne(state, setting, |setting.repositories|);
    var recorded := Record(state.incidents, AllWanted(state, setting, scripts));
    RecordMeans(state.incidents, AllWanted(state, setting, scripts));
    SortKeepsNoRepeats(recorded);
    LatestMeans(recorded);
  }

  // ---- what the entries bring about ------------------------------------------------

  /** An entry of one of these severities matches the subject. */
  ghost predicate Hit(state: State, matching: Matching, subject: Subject, severities: set<Severity>) {
    exists e :: e in state.entries && matching(e, subject) && e.severity in severities
  }

  lemma {:induction false} MatchesMeans(entries: seq<Entry>, subject: Subject, matching: Matching)
    ensures forall e :: e in Matches(entries, subject, matching) <==> e in entries && matching(e, subject)
  {
    if entries != [] {
      var init, last := entries[..|entries| - 1], entries[|entries| - 1];
      MatchesMeans(init, subject, matching);
      assert entries == init + [last];
    }
  }

  /** What a decision about a subject stops, by the entries that match it. */
  lemma DecisionMeans(state: State, matching: Matching, subject: Subject)
    ensures var decision := FromEntries(Matches(state.entries, subject, matching));
            && (BlocksDistribution(decision) <==> Hit(state, matching, subject, {Medium, High, Critical}))
            && (BlocksExecution(decision) <==> Hit(state, matching, subject, {High, Critical}))
            && (RequestsCancellation(decision) <==> Hit(state, matching, subject, {Critical}))
            && (forall e | e in decision.entries :: e in state.entries && matching(e, subject))
            && (forall e | e in state.entries && matching(e, subject) :: HasId(decision.entries, e.id))
  {
    var matched := Matches(state.entries, subject, matching);
    MatchesMeans(state.entries, subject, matching);
    DecisionIsTheWorst(matched, Medium);
    DecisionIsTheWorst(matched, High);
    DecisionIsTheWorst(matched, Critical);
    hide Matches, FromEntries, HasId, AtLeast;
    RanksMean();
  }

  lemma RanksMean()
    ensures forall s: Severity :: Rank(s) >= Rank(Medium) <==> s in {Medium, High, Critical}
    ensures forall s: Severity :: Rank(s) >= Rank(High) <==> s in {High, Critical}
    ensures forall s: Severity :: Rank(s) >= Rank(Critical) <==> s in {Critical}
  {
  }

  /** What is asked about an installed script: its id, its hash and every address its provenance vouches
      for. */
  lemma SubjectMeans(state: State, id: string, hash: string)
    ensures var subject := ScriptSubject(state, id, hash);
            && subject.scriptId == Some(id) && subject.packageHash == Some(hash)
            && forall url :: url in subject.trustedUrls <==>
                 && id in state.provenance
                 && var source := state.provenance[id];
                    || source.repositoryUrl == Some(url) || url in source.packageUrls
                    || source.finalPackageUrl == Some(url)
                    || (source.repositoryUrl.Some? && source.repositoryUrl.value in state.repositoryProvenance
                        && url in state.repositoryProvenance[source.repositoryUrl.value])
  {
  }

  /** An entry of one of these severities matches the installed script. */
  ghost predicate ScriptHit(state: State, setting: Setting, script: Script, severities: set<Severity>) {
    Hit(state, setting.matching, ScriptSubject(state, script.id, script.packageHash), severities)
  }

  ghost predicate RepositoryHit(state: State, setting: Setting, url: string, severities: set<Severity>) {
    Hit(state, setting.matching, Subject(None, None, [url]), severities)
  }

  /** After a quarantine every script that a high or critical entry matches is disabled, and every other is
      as it was; those are added to the list, and nothing else is; and cancellation is asked for exactly
      those that a critical entry matches. */
  lemma QuarantineStopsTheBlocked(state: State, setting: Setting, scripts: seq<Script>)
    ensures |DisabledAll(state, setting, scripts)| == |scripts|
    ensures forall i :: 0 <= i < |scripts| ==>
              DisabledAll(state, setting, scripts)[i]
                == if ScriptHit(state, setting, scripts[i], {High, Critical}) then scripts[i].(enabled := false)
                   else scripts[i]
    ensures forall id :: id in Quarantined(state, setting, scripts).quarantined <==>
              || id in state.quarantined
              || exists i :: 0 <= i < |scripts| && scripts[i].id == id
                             && ScriptHit(state, setting, scripts[i], {High, Critical})
    ensures forall id :: id in CriticalIds(state, setting, scripts) <==>
              exists i :: 0 <= i < |scripts| && scripts[i].id == id && ScriptHit(state, setting, scripts[i], {Critical})
  {
    forall script: Script
      ensures BlocksExecution(DecisionOf(state, setting, script))
           <==> ScriptHit(state, setting, script, {High, Critical})
      ensures RequestsCancellation(DecisionOf(state, setting, script))
           <==> ScriptHit(state, setting, script, {Critical})
    {
      DecisionMeans(state, setting.matching, ScriptSubject(state, script.id, script.packageHash));
    }
    hide DecisionOf, ScriptHit, BlocksExecution, RequestsCancellation, Record, Latest, AllWanted;
  }

  /** Incidents are wanted about a subject exactly when an entry of medium or worse matches it; then every
      matching entry, however mild, is named, and nothing but matching entries is. */
  lemma WantedMeans(state: State, matching: Matching, subject: Subject, now: nat, repository: Option<string>,
                    script: Option<string>)
    ensures var wanted := WantedFor(FromEntries(Matches(state.entries, subject, matching)), now, repository, script);
            && (wanted != [] <==> Hit(state, matching, subject, {Medium, High, Critical}))
            && (forall w | w in wanted ::
                  && w.entry in state.entries && matching(w.entry, subject)
                  && w.recordedAt == now && w.repositoryUrl == repository && w.scriptId == script)
            && (wanted != [] ==> forall e | e in state.entries && matching(e, subject) :: Names(wanted, e.id))
  {
    DecisionMeans(state, matching, subject);
    hide Matches, FromEntries;
    var decision := FromEntries(Matches(state.entries, subject, matching));
    var wanted := WantedFor(decision, now, repository, script);
    forall w | w in wanted ensures w.entry in decision.entries {
      var i :| 0 <= i < |wanted| && wanted[i] == w;
      assert decision.entries[i] == w.entry;
    }
    forall e | wanted != [] && e in state.entries && matching(e, subject) ensures Names(wanted, e.id) {
      var i :| 0 <= i < |decision.entries| && decision.entries[i].id == e.id;
      assert wanted[i].entry.id == e.id;
    }
    if BlocksDistribution(decision) {
      var e :| e in state.entries && matching(e, subject);
      assert HasId(decision.entries, e.id);
    }
  }

  predicate Names(incidents: seq<Incident>, id: string) {
    exists i :: 0 <= i < |incidents| && incidents[i].entry.id == id
  }

  function WantedOf(state: State, setting: Setting, script: Script): seq<Incident> {
    WantedFor(DecisionOf(state, setting, script), setting.clock(script.id), None, Some(script.id))
  }

  function WantedAt(state: State, setting: Setting, url: string): seq<Incident> {
    WantedFor(RepositoryDecision(state, url, setting.matching), setting.clock(url), Some(url), None)
  }

  lemma ScriptsWantedUnfold(state: State, setting: Setting, scripts: seq<Script>)
    ensures ScriptsWanted(state, setting, scripts)
         == if scripts == [] then []
            else ScriptsWanted(state, setting, scripts[..|scripts| - 1])
                 + WantedOf(state, setting, scripts[|scripts| - 1])
  {
    hide WantedFor, DecisionOf;
  }

  lemma RepositoriesWantedUnfold(state: State, setting: Setting, count: nat)
    requires count <= |setting.repositories|
    ensures RepositoriesWanted(state, setting, count)
         == if count == 0 then []
            else RepositoriesWanted(state, setting, count - 1)
                 + WantedAt(state, setting, setting.repositories[count - 1])
  {
    hide WantedFor, RepositoryDecision;
  }

  /** What an application wants is what it wants about each repository and each script. */
  lemma {:induction false} ScriptsWantedMembers(state: State, setting: Setting, scripts: seq<Script>, w: Incident)
    ensures w in ScriptsWanted(state, setting, scripts) <==>
              exists i :: 0 <= i < |scripts| && w in WantedOf(state, setting, scripts[i])
  {
    hide ScriptsWanted, WantedOf;
    ScriptsWantedUnfold(state, setting, scripts);
    if scripts != [] {
      var init := scripts[..|scripts| - 1];
      ScriptsWantedMembers(state, setting, init, w);
      if i :| 0 <= i < |init| && w in WantedOf(state, setting, init[i]) {
        assert scripts[i] == init[i];
      }
      if i :| 0 <= i < |scripts| && w in WantedOf(state, setting, scripts[i]) {
        assert i < |init| ==> scripts[i] == init[i];
      }
    }
  }

  lemma {:induction false} RepositoriesWantedMembers(state: State, setting: Setting, count: nat, w: Incident)
    requires count <= |setting.repositories|
    ensures w in RepositoriesWanted(state, setting, count) <==>
              exists i :: 0 <= i < count && w in WantedAt(state, setting, setting.repositories[i])
  {
    hide RepositoriesWanted, WantedAt;
    RepositoriesWantedUnfold(state, setting, count);
    if count > 0 {
      RepositoriesWantedMembers(state, setting, count - 1, w);
    }
  }

  /** What an application wants on record about a script: something exactly when an entry of medium or worse
      matches it, then one incident for every entry that matches it, and none of another entry; each stamped
      with the time. */
  lemma ScriptIncidents(state: State, setting: Setting, script: Script)
    ensures var wanted := WantedOf(state, setting, script);
            var subject := ScriptSubject(state, script.id, script.packageHash);
            && (wanted != [] <==> ScriptHit(state, setting, script, {Medium, High, Critical}))
            && (forall w | w in wanted ::
                  && w.entry in state.entries && setting.matching(w.entry, subject)
                  && w.recordedAt == setting.clock(script.id)
                  && w.repositoryUrl == None && w.scriptId == Some(script.id))
            && (wanted != [] ==> forall e | e in state.entries && setting.matching(e, subject) :: Names(wanted, e.id))
  {
    WantedMeans(state, setting.matching, ScriptSubject(state, script.id, script.packageHash), setting.clock(script.id),
                None, Some(script.id));
    hide WantedFor, Matches, FromEntries, Names, Hit;
  }

  lemma RepositoryIncidents(state: State, setting: Setting, url: string)
    ensures var wanted := WantedAt(state, setting, url);
            var subject := Subject(None, None, [url]);
            && (wanted != [] <==> RepositoryHit(state, setting, url, {Medium, High, Critical}))
            && (forall w | w in wanted ::
                  && w.entry in state.entries && setting.matching(w.entry, subject)
                  && w.recordedAt == setting.clock(url) && w.repositoryUrl == Some(url) && w.scriptId == None)
            && (wanted != [] ==> forall e | e in state.entries && setting.matching(e, subject) :: Names(wanted, e.id))
  {
    WantedMeans(state, setting.matching, Subject(None, None, [url]), setting.clock(url), Some(url), None);
    hide WantedFor, Matches, FromEntries, Names, Hit;
  }

  /** All that an application wants is what it wants about the configured repositories and the installed
      scripts, one by one. */
  lemma WantedIncidents(state: State, setting: Setting, scripts: seq<Script>, w: Incident)
    ensures w in AllWanted(state, setting, scripts) <==>
              || (exists i :: 0 <= i < |setting.repositories| && w in WantedAt(state, setting, setting.repositories[i]))
              || (exists i :: 0 <= i < |scripts| && w in WantedOf(state, setting, scripts[i]))
  {
    hide WantedAt, WantedOf, RepositoriesWanted, ScriptsWanted;
    RepositoriesWantedMembers(state, setting, |setting.repositories|, w);
    ScriptsWantedMembers(state, setting, scripts, w);
  }

  // ---- doing it twice --------------------------------------------------------------

  /** The same but for the state of the switches. */
  ghost predicate SameScripts(a: seq<Script>, b: seq<Script>) {
    |a| == |b| && forall i :: 0 <= i < |a| ==> a[i].id == b[i].id && a[i].packageHash == b[i].packageHash
  }

  ghost predicate SamePolicy(a: State, b: State) {
    a.entries == b.entries && a.provenance == b.provenance && a.repositoryProvenance == b.repositoryProvenance
  }

  /** The same matters, perhaps at other times. */
  ghost predicate SameMatters(a: seq<Incident>, b: seq<Incident>) {
    |a| == |b| && forall i :: 0 <= i < |a| ==> a[i].(recordedAt := 0) == b[i].(recordedAt := 0)
  }

  lemma WantedForSameMatters(decision: Decision, early: nat, late: nat, repository: Option<string>,
                             script: Option<string>)
    ensures SameMatters(WantedFor(decision, early, repository, script), WantedFor(decision, late, repository, script))
  {
  }

  lemma SameMattersAppend(a: seq<Incident>, b: seq<Incident>, c: seq<Incident>, d: seq<Incident>)
    requires SameMatters(a, b) && SameMatters(c, d)
    ensures SameMatters(a + c, b + d)
  {
  }

  lemma {:induction false} ScriptsWantSameMatters(a: State, b: State, first: Setting, second: Setting,
                                                   before: seq<Script>, after: seq<Script>)
    requires SamePolicy(a, b) && SameScripts(before, after) && first.matching == second.matching
    ensures SameMatters(ScriptsWanted(a, first, before), ScriptsWanted(b, second, after))
  {
    if before != [] {
      var was, now := before[|before| - 1], after[|after| - 1];
      ScriptsWantSameMatters(a, b, first, second, before[..|before| - 1], after[..|after| - 1]);
      assert DecisionOf(a, first, was) == DecisionOf(b, second, now);
      hide DecisionOf, WantedFor, SameMatters, AtLeast;
      WantedForSameMatters(DecisionOf(a, first, was), first.clock(was.id), second.clock(now.id), None, Some(was.id));
      SameMattersAppend(ScriptsWanted(a, first, before[..|before| - 1]), ScriptsWanted(b, second, after[..|after| - 1]),
                        WantedFor(DecisionOf(a, first, was), first.clock(was.id), None, Some(was.id)),
                        WantedFor(DecisionOf(a, first, was), second.clock(now.id), None, Some(was.id)));
    }
  }

  lemma {:induction false} RepositoriesWantSameMatters(a: State, b: State, first: Setting, second: Setting, count: nat)
    requires SamePolicy(a, b) && first.matching == second.matching && first.repositories == second.repositories
    requires count <= |first.repositories|
    ensures SameMatters(RepositoriesWanted(a, first, count), RepositoriesWanted(b, second, count))
  {
    if count > 0 {
      var url := first.repositories[count - 1];
      RepositoriesWantSameMatters(a, b, first, second, count - 1);
      var decision := RepositoryDecision(a, url, first.matching);
      assert decision == RepositoryDecision(b, url, second.matching);
      hide RepositoryDecision, WantedFor, SameMatters, AtLeast;
      WantedForSameMatters(decision, first.clock(url), second.clock(url), Some(url), None);
      SameMattersAppend(RepositoriesWanted(a, first, count - 1), RepositoriesWanted(b, second, count - 1),
                        WantedFor(decision, first.clock(url), Some(url), None),
                        WantedFor(decision, second.clock(url), Some(url), None));
    }
  }

  lemma SameMattersOnRecord(incidents: seq<Incident>, a: seq<Incident>, b: seq<Incident>)
    requires SameMatters(a, b) && forall w | w in a :: OnRecord(incidents, w)
    ensures forall w | w in b :: OnRecord(incidents, w)
  {
    forall w | w in b ensures OnRecord(incidents, w) {
      var i :| 0 <= i < |b| && b[i] == w;
      assert a[i] in a && OnRecord(incidents, a[i]);
      var k :| 0 <= k < |incidents| && SameMatter(incidents[k], a[i]);
      assert SameMatter(incidents[k], w);
    }
  }

  lemma WantsSameMatters(state: State, first: Setting, second: Setting, scripts: seq<Script>)
    requires first.matching == second.matching && first.repositories == second.repositories
    ensures SameMatters(AllWanted(state, first, scripts),
                        AllWanted(Quarantined(state, first, scripts), second, DisabledAll(state, first, scripts)))
    ensures forall w | w in AllWanted(state, first, scripts) :: AboutOne(w)
  {
    hide Record, Latest, BlockedIds, CriticalIds, ScriptsWanted, RepositoriesWanted;
    var after := Quarantined(state, first, scripts);
    WantedAboutOne(state, first, scripts);
    RepositoriesAboutOne(state, first, |first.repositories|);
    ScriptsWantSameMatters(state, after, first, second, scripts, DisabledAll(state, first, scripts));
    RepositoriesWantSameMatters(state, after, first, second, |first.repositories|);
  }

  lemma SameDecision(a: State, b: State, first: Setting, second: Setting, script: Script, other: Script)
    requires SamePolicy(a, b) && first.matching == second.matching
    requires script.id == other.id && script.packageHash == other.packageHash
    ensures DecisionOf(a, first, script) == DecisionOf(b, second, other)
  {
  }

  /** The same scripts are blocked, the same are critical, and none is left to disable. */
  lemma SameBlocked(a: State, b: State, first: Setting, second: Setting, scripts: seq<Script>)
    requires SamePolicy(a, b) && first.matching == second.matching
    ensures var disabled := DisabledAll(a, first, scripts);
            && BlockedIds(b, second, disabled) == BlockedIds(a, first, scripts)
            && CriticalIds(b, second, disabled) == CriticalIds(a, first, scripts)
            && DisabledAll(b, second, disabled) == disabled
  {
    var disabled := DisabledAll(a, first, scripts);
    forall i | 0 <= i < |scripts|
      ensures disabled[i].id == scripts[i].id && DecisionOf(b, second, disabled[i]) == DecisionOf(a, first, scripts[i])
    {
      SameDecision(a, b, first, second, scripts[i], disabled[i]);
    }
    hide DecisionOf, AtLeast;
    assert |disabled| == |scripts|;
    forall i | 0 <= i < |disabled| ensures Disabled(b, second, disabled[i]) == disabled[i] {
    }
  }

  /** Everything wanted is on record. */
  ghost predicate Covers(incidents: seq<Incident>, wanted: seq<Incident>) {
    forall w | w in wanted :: OnRecord(incidents, w)
  }

  lemma SameMattersCovered(incidents: seq<Incident>, a: seq<Incident>, b: seq<Incident>)
    requires SameMatters(a, b)
    ensures Covers(incidents, a) <==> Covers(incidents, b)
  {
    if Covers(incidents, a) {
      SameMattersOnRecord(incidents, a, b);
    }
    if Covers(incidents, b) {
      SameMattersOnRecord(incidents, b, a);
    }
  }

  /** What recording adds. */
  function Added(incidents: seq<Incident>, wanted: seq<Incident>): seq<Incident> {
    if wanted == [] then []
    else
      var before := Added(incidents, wanted[..|wanted| - 1]);
      var last := wanted[|wanted| - 1];
      if OnRecord(incidents + before, last) then before else before + [last]
  }

  lemma {:induction false} RecordAdds(incidents: seq<Incident>, wanted: seq<Incident>)
    ensures Record(incidents, wanted) == incidents + Added(incidents, wanted)
    ensures forall w | w in Added(incidents, wanted) :: w in wanted
  {
    hide OnRecord;
    if wanted == [] {
      assert incidents + [] == incidents;
    } else {
      RecordAdds(incidents, wanted[..|wanted| - 1]);
    }
  }

  lemma {:induction false} AddedIsEmptyIff(incidents: seq<Incident>, wanted: seq<Incident>)
    ensures Added(incidents, wanted) == [] <==> Covers(incidents, wanted)
  {
    hide OnRecord;
    if wanted != [] {
      var init, last := wanted[..|wanted| - 1], wanted[|wanted| - 1];
      AddedIsEmptyIff(incidents, init);
      assert wanted == init + [last] && incidents + [] == incidents;
    }
  }

  /** What comes behind the first `n` leaves them where they are. */
  lemma {:induction false} InsertBehind(x: Incident, sorted: seq<Incident>, n: nat)
    requires n <= |sorted| && forall i :: 0 <= i < n ==> !Newer(x, sorted[i])
    ensures n <= |StableSort.Insert(x, sorted, Newer)| && StableSort.Insert(x, sorted, Newer)[..n] == sorted[..n]
  {
    hide Newer;
    if n > 0 {
      InsertBehind(x, sorted[1..], n - 1);
      assert sorted[..n] == [sorted[0]] + sorted[1..][..n - 1];
    }
  }

  lemma {:induction false} SortBehind(kept: seq<Incident>, extra: seq<Incident>)
    requires StableSort.Sorted(kept, Newer) && forall w, x | w in extra && x in kept :: !Newer(w, x)
    ensures |kept| <= |StableSort.Sort(kept + extra, Newer)| && StableSort.Sort(kept + extra, Newer)[..|kept|] == kept
  {
    hide Newer;
    if extra == [] {
      assert kept + extra == kept;
      StableSort.SortedStays(kept, Newer);
    } else {
      var init, last := extra[..|extra| - 1], extra[|extra| - 1];
      SortBehind(kept, init);
      assert (kept + extra)[..|kept + extra| - 1] == kept + init;
      var sorted := StableSort.Sort(kept + init, Newer);
      forall i | 0 <= i < |kept| ensures !Newer(last, sorted[i]) {
        assert sorted[i] == sorted[..|kept|][i] == kept[i];
      }
      InsertBehind(last, sorted, |kept|);
    }
  }

  /** Nothing is added, or the record is full and nothing added is newer than its oldest incident. */
  ghost predicate Undisturbed(kept: seq<Incident>, extra: seq<Incident>) {
    extra == [] || (|kept| == MAX_INCIDENTS && forall w | w in extra :: !Newer(w, kept[MAX_INCIDENTS - 1]))
  }

  lemma UndisturbedStays(kept: seq<Incident>, extra: seq<Incident>)
    requires StableSort.Sorted(kept, Newer) && |kept| <= MAX_INCIDENTS && Undisturbed(kept, extra)
    ensures Latest(kept + extra) == kept
  {
    if extra == [] {
      assert kept + extra == kept;
      LatestStays(kept);
    } else {
      NewerIsByKey();
      var oldest := kept[MAX_INCIDENTS - 1];
      forall w, x | w in extra && x in kept ensures !Newer(w, x) {
        var i :| 0 <= i < |kept| && kept[i] == x;
        assert i < MAX_INCIDENTS - 1 ==> !Newer(oldest, x);
      }
      hide Newer;
      SortBehind(kept, extra);
      LatestMeans(kept + extra);
    }
  }

  lemma StaysUndisturbed(kept: seq<Incident>, extra: seq<Incident>)
    requires |kept| <= MAX_INCIDENTS && Latest(kept + extra) == kept
    ensures Undisturbed(kept, extra)
  {
    hide Newer;
    LatestMeans(kept + extra);
    var sorted := StableSort.Sort(kept + extra, Newer);
    if extra != [] {
      var rest := sorted[|kept|..];
      assert sorted == kept + rest;
      assert multiset(sorted) == multiset(kept) + multiset(rest);
      assert multiset(kept + extra) == multiset(kept) + multiset(extra);
      SameRemainder(multiset(kept), multiset(rest), multiset(extra));
      forall w | w in extra ensures !Newer(w, kept[MAX_INCIDENTS - 1]) {
        assert w in multiset(extra);
        var k :| 0 <= k < |rest| && rest[k] == w;
        assert sorted[|kept| + k] == w;
      }
    }
  }

  /** Recording and cutting off leaves a sorted record as it is exactly when it is undisturbed. */
  lemma RecordingStaysIff(kept: seq<Incident>, again: seq<Incident>)
    requires StableSort.Sorted(kept, Newer) && |kept| <= MAX_INCIDENTS
    ensures Latest(Record(kept, again)) == kept <==> Undisturbed(kept, Added(kept, again))
    ensures Covers(kept, again) ==> Latest(Record(kept, again)) == kept
    ensures (forall x, w | x in kept && w in again :: x.recordedAt < w.recordedAt) ==>
              (Latest(Record(kept, again)) == kept <==> Covers(kept, again))
  {
    hide Record, Latest, Added, Covers, StableSort.Sorted;
    RecordAdds(kept, again);
    AddedIsEmptyIff(kept, again);
    var extra := Added(kept, again);
    if Undisturbed(kept, extra) {
      UndisturbedStays(kept, extra);
    }
    if Latest(kept + extra) == kept {
      StaysUndisturbed(kept, extra);
    }
    if extra != [] && forall x, w | x in kept && w in again :: x.recordedAt < w.recordedAt {
      LaterDisturbs(kept, extra);
    }
  }

  lemma LaterDisturbs(kept: seq<Incident>, extra: seq<Incident>)
    requires extra != [] && forall x, w | x in kept && w in extra :: x.recordedAt < w.recordedAt
    ensures !Undisturbed(kept, extra)
  {
    if |kept| == MAX_INCIDENTS {
      var oldest := kept[MAX_INCIDENTS - 1];
      assert oldest in kept && extra[0] in extra;
      assert Newer(extra[0], oldest);
    }
  }

  lemma SameRemainder<T>(a: multiset<T>, b: multiset<T>, c: multiset<T>)
    requires a + b == a + c
    ensures b == c
  {
    forall x ensures b[x] == c[x] {
      assert (a + b)[x] == (a + c)[x];
    }
  }

  /** The clock stamps every incident an application wants. */
  lemma WantedAreStamped(state: State, setting: Setting, scripts: seq<Script>, now: nat)
    requires forall name :: now < setting.clock(name)
    ensures forall w | w in AllWanted(state, setting, scripts) :: now < w.recordedAt
  {
    RepositoriesAreStamped(state, setting, |setting.repositories|, now);
    ScriptsAreStamped(state, setting, scripts, now);
  }

  lemma WantedForIsStamped(decision: Decision, now: nat, repository: Option<string>, script: Option<string>)
    ensures forall w | w in WantedFor(decision, now, repository, script) :: w.recordedAt == now
  {
  }

  lemma {:induction false} RepositoriesAreStamped(state: State, setting: Setting, count: nat, now: nat)
    requires count <= |setting.repositories| && forall name :: now < setting.clock(name)
    ensures forall w | w in RepositoriesWanted(state, setting, count) :: now < w.recordedAt
  {
    hide WantedFor, RepositoryDecision;
    if count > 0 {
      RepositoriesAreStamped(state, setting, count - 1, now);
      var url := setting.repositories[count - 1];
      WantedForIsStamped(RepositoryDecision(state, url, setting.matching), setting.clock(url), Some(url), None);
    }
  }

  lemma {:induction false} ScriptsAreStamped(state: State, setting: Setting, scripts: seq<Script>, now: nat)
    requires forall name :: now < setting.clock(name)
    ensures forall w | w in ScriptsWanted(state, setting, scripts) :: now < w.recordedAt
  {
    hide WantedFor, DecisionOf;
    if scripts != [] {
      var script := scripts[|scripts| - 1];
      ScriptsAreStamped(state, setting, scripts[..|scripts| - 1], now);
      WantedForIsStamped(DecisionOf(state, setting, script), setting.clock(script.id), None, Some(script.id));
    }
  }

  /** A second quarantine with nothing changed but the clock disables nothing more and asks for the same
      cancellations. It leaves the incidents alone exactly when it adds none, or the record is full and
      none it adds is newer than the oldest on it; so whenever everything wanted is on record, and, when
      its clock is later than every incident kept, only then. */
  lemma QuarantineIsIdempotentIff(state: State, first: Setting, second: Setting, scripts: seq<Script>)
    requires first.matching == second.matching && first.repositories == second.repositories
    ensures var after := Quarantined(state, first, scripts);
            var disabled := DisabledAll(state, first, scripts);
            var covered := Covers(after.incidents, AllWanted(state, first, scripts));
            && DisabledAll(after, second, disabled) == disabled
            && CriticalIds(after, second, disabled) == CriticalIds(state, first, scripts)
            && (Quarantined(after, second, disabled) == after
                <==> Undisturbed(after.incidents, Added(after.incidents, AllWanted(after, second, disabled))))
            && (covered ==> Quarantined(after, second, disabled) == after)
            && (LaterThan(after.incidents, second) ==> (Quarantined(after, second, disabled) == after <==> covered))
  {
    var after := Quarantined(state, first, scripts);
    var disabled := DisabledAll(state, first, scripts);
    var wanted, again := AllWanted(state, first, scripts), AllWanted(after, second, disabled);
    SameBlocked(state, after, first, second, scripts);
    WantsSameMatters(state, first, second, scripts);
    LatestMeans(Record(state.incidents, wanted));
    if LaterThan(after.incidents, second) {
      forall x, w | x in after.incidents && w in again ensures x.recordedAt < w.recordedAt {
        WantedAreStamped(after, second, disabled, x.recordedAt);
      }
    }
    SameMattersCovered(after.incidents, wanted, again);
    assert Quarantined(after, second, disabled) == after.(incidents := Latest(Record(after.incidents, again)));
    hide AllWanted, Record, Latest, DisabledAll, BlockedIds, CriticalIds, SameMatters, Covers, Added, Undisturbed;
    RecordingStaysIff(after.incidents, again);
  }

  /** The clock is past every incident on record. */
  ghost predicate LaterThan(incidents: seq<Incident>, setting: Setting) {
    forall x, name: string | x in incidents :: x.recordedAt < setting.clock(name)
  }

  lemma AgainAboutOne(state: State, setting: Setting, scripts: seq<Script>)
    ensures forall w | w in AllWanted(state, setting, scripts) :: AboutOne(w)
  {
    WantedAboutOne(state, setting, scripts);
    RepositoriesAboutOne(state, setting, |setting.repositories|);
  }

  /** When no incident had to be left out, everything wanted is on record. */
  lemma NothingLeftOutCovers(state: State, setting: Setting, scripts: seq<Script>)
    requires |Record(state.incidents, AllWanted(state, setting, scripts))| <= MAX_INCIDENTS
    ensures Covers(Quarantined(state, setting, scripts).incidents, AllWanted(state, setting, scripts))
  {
    var wanted := AllWanted(state, setting, scripts);
    AgainAboutOne(state, setting, scripts);
    RecordMeans(state.incidents, wanted);
    var recorded := Record(state.incidents, wanted);
    assert Latest(recorded) == StableSort.Sort(recorded, Newer) by {
      LatestMeans(recorded);
    }
    hide AllWanted, Record, Latest;
    SortedKeepsOnRecord(recorded, wanted);
  }

  lemma SortedKeepsOnRecord(incidents: seq<Incident>, wanted: seq<Incident>)
    requires forall w | w in wanted :: OnRecord(incidents, w)
    ensures forall w | w in wanted :: OnRecord(StableSort.Sort(incidents, Newer), w)
  {
    var sorted := StableSort.Sort(incidents, Newer);
    StableSort.SortMembers(incidents, Newer);
    forall w | w in wanted ensures OnRecord(sorted, w) {
      var i :| 0 <= i < |incidents| && SameMatter(incidents[i], w);
      assert incidents[i] in sorted;
      var k :| 0 <= k < |sorted| && sorted[k] == incidents[i];
      assert SameMatter(sorted[k], w);
    }
  }

  lemma LatestStays(incidents: seq<Incident>)
    requires StableSort.Sorted(incidents, Newer) && |incidents| <= MAX_INCIDENTS
    ensures Latest(incidents) == incidents
  {
    StableSort.SortedStays(incidents, Newer);
  }

  // ---- when incidents were left out ------------------------------------------------

  /** The ids of the entries on record. */
  function EntryIds(incidents: seq<Incident>): set<string> {
    set i | 0 <= i < |incidents| :: incidents[i].entry.id
  }

  lemma {:induction false} FewIds(incidents: seq<Incident>)
    ensures |EntryIds(incidents)| <= |incidents|
  {
    if incidents == [] {
      assert EntryIds(incidents) == {};
    } else {
      var init, last := incidents[..|incidents| - 1], incidents[|incidents| - 1];
      FewIds(init);
      assert EntryIds(incidents) == EntryIds(init) + {last.entry.id} by {
        forall id ensures id in EntryIds(incidents) <==> id in EntryIds(init) + {last.entry.id} {
          if id in EntryIds(init) {
            var i :| 0 <= i < |init| && init[i].entry.id == id;
            assert incidents[i].entry.id == id;
          }
          assert incidents[|incidents| - 1].entry.id == last.entry.id;
        }
      }
    }
  }

  lemma SubsetIsSmaller(a: set<string>, b: set<string>)
    requires a <= b
    ensures |a| <= |b|
  {
    assert b == a + (b - a);
  }

  /** A record that covers everything wanted names every entry wanted, so at most a thousand entries. */
  lemma CoveredEntriesAreFew(incidents: seq<Incident>, wanted: seq<Incident>)
    requires Covers(incidents, wanted)
    ensures |EntryIds(wanted)| <= |incidents|
  {
    forall id | id in EntryIds(wanted) ensures id in EntryIds(incidents) {
      var i :| 0 <= i < |wanted| && wanted[i].entry.id == id;
      assert wanted[i] in wanted;
      var k :| 0 <= k < |incidents| && SameMatter(incidents[k], wanted[i]);
      assert incidents[k].entry.id == id;
    }
    FewIds(incidents);
    SubsetIsSmaller(EntryIds(wanted), EntryIds(incidents));
  }

  /** With more than a thousand entries wanted, every later application changes the record again. */
  lemma CrowdedQuarantineNeverSettles(state: State, first: Setting, second: Setting, scripts: seq<Script>)
    requires first.matching == second.matching && first.repositories == second.repositories
    requires LaterThan(Quarantined(state, first, scripts).incidents, second)
    requires |EntryIds(AllWanted(state, first, scripts))| > MAX_INCIDENTS
    ensures var after := Quarantined(state, first, scripts);
            Quarantined(after, second, DisabledAll(state, first, scripts)) != after
  {
    var after, wanted := Quarantined(state, first, scripts), AllWanted(state, first, scripts);
    QuarantineIsIdempotentIff(state, first, second, scripts);
    LatestMeans(Record(state.incidents, wanted));
    hide AllWanted, Record, Latest, DisabledAll, BlockedIds, CriticalIds, Covers, EntryIds, LaterThan;
    if Covers(after.incidents, wanted) {
      CoveredEntriesAreFew(after.incidents, wanted);
    }
  }

  // ---- a blacklist that never settles ----------------------------------------------

  function Name(n: nat): string {
    seq(n, _ => 'a')
  }

  /** One medium entry more than the record holds, under different ids. */
  function CrowdedState(): State {
    State(seq(MAX_INCIDENTS + 1, i requires 0 <= i => Entry(Name(i), Medium, DomainScope, "", "")), [], map[], map[],
          {})
  }

  /** They all match the one configured repository. */
  function CrowdedSetting(now: nat): Setting {
    Setting(["url"], (e: Entry, subject: Subject) => true, (name: string) => now)
  }

  lemma {:induction false} NamesCount(n: nat)
    ensures |set i | 0 <= i < n :: Name(i)| == n
  {
    var names := set i | 0 <= i < n :: Name(i);
    if n == 0 {
      assert names == {};
    } else {
      NamesCount(n - 1);
      var fewer := set i | 0 <= i < n - 1 :: Name(i);
      assert names == fewer + {Name(n - 1)};
      assert Name(n - 1) !in fewer by {
        forall i | 0 <= i < n - 1 ensures Name(i) != Name(n - 1) {
          assert |Name(i)| == i && |Name(n - 1)| == n - 1;
        }
      }
    }
  }

  lemma {:induction false} AllMatch(entries: seq<Entry>, subject: Subject, matching: Matching)
    requires forall e | e in entries :: matching(e, subject)
    ensures Matches(entries, subject, matching) == entries
  {
    if entries != [] {
      var init := entries[..|entries| - 1];
      AllMatch(init, subject, matching);
      assert entries == init + [entries[|entries| - 1]];
    }
  }

  /** The repository is blocked, by every one of these entries. */
  lemma CrowdedDecision(now: nat)
    ensures var decision := RepositoryDecision(CrowdedState(), "url", CrowdedSetting(now).matching);
            BlocksDistribution(decision) && forall i: nat | i <= MAX_INCIDENTS :: HasId(decision.entries, Name(i))
  {
    var state, setting := CrowdedState(), CrowdedSetting(now);
    AllMatch(state.entries, Subject(None, None, ["url"]), setting.matching);
    DecisionIsTheWorst(state.entries, Medium);
    assert state.entries[0] in state.entries;
    hide FromEntries, Matches, AtLeast, HasId, Name;
    forall i: nat | i <= MAX_INCIDENTS ensures HasId(FromEntries(state.entries).entries, Name(i)) {
      assert state.entries[i] in state.entries && state.entries[i].id == Name(i);
    }
  }

  /** Every one of these entries is wanted about the repository. */
  lemma CrowdedIsWanted(now: nat)
    ensures |EntryIds(AllWanted(CrowdedState(), CrowdedSetting(now), []))| > MAX_INCIDENTS
  {
    CrowdedWanted(now);
    CrowdedDecision(now);
    var decision := RepositoryDecision(CrowdedState(), "url", CrowdedSetting(now).matching);
    var wanted := WantedFor(decision, now, Some("url"), None);
    hide RepositoryDecision, AtLeast, Name, AllWanted;
    var names := set i | 0 <= i < MAX_INCIDENTS + 1 :: Name(i);
    forall id | id in names ensures id in EntryIds(wanted) {
      var i: nat :| i < MAX_INCIDENTS + 1 && Name(i) == id;
      var k :| 0 <= k < |decision.entries| && decision.entries[k].id == Name(i);
      assert wanted[k].entry.id == id;
    }
    NamesCount(MAX_INCIDENTS + 1);
    SubsetIsSmaller(names, EntryIds(wanted));
  }

  lemma CrowdedWanted(now: nat)
    ensures var state, setting := CrowdedState(), CrowdedSetting(now);
            AllWanted(state, setting, [])
              == WantedFor(RepositoryDecision(state, "url", setting.matching), now, Some("url"), None)
  {
    var state, setting := CrowdedState(), CrowdedSetting(now);
    var wanted := WantedFor(RepositoryDecision(state, "url", setting.matching), now, Some("url"), None);
    hide RepositoryDecision, WantedFor;
    assert RepositoriesWanted(state, setting, 1) == RepositoriesWanted(state, setting, 0) + wanted;
    assert RepositoriesWanted(state, setting, 0) == [] && ScriptsWanted(state, setting, []) == [];
  }

  /** "Applying the quarantine again changes nothing" fails here, a second later. */
  lemma CrowdedExample(now: nat)
    ensures var state, first, second := CrowdedState(), CrowdedSetting(now), CrowdedSetting(now + 1);
            var after := Quarantined(state, first, []);
            Quarantined(after, second, DisabledAll(state, first, [])) != after
  {
    var state, first, second := CrowdedState(), CrowdedSetting(now), CrowdedSetting(now + 1);
    CrowdedIsWanted(now);
    CrowdedStamps(now);
    hide AllWanted, Quarantined, DisabledAll, EntryIds, LaterThan, CrowdedState;
    CrowdedQuarantineNeverSettles(state, first, second, []);
  }

  lemma CrowdedStamps(now: nat)
    ensures LaterThan(Quarantined(CrowdedState(), CrowdedSetting(now), []).incidents, CrowdedSetting(now + 1))
  {
    var state, setting := CrowdedState(), CrowdedSetting(now);
    var wanted := AllWanted(state, setting, []);
    var recorded := Record([], wanted);
    CrowdedWanted(now);
    AgainAboutOne(state, setting, []);
    RecordMeans([], wanted);
    LatestMeans(recorded);
    StableSort.SortMembers(recorded, Newer);
    hide Record, AllWanted, RepositoryDecision, CrowdedState;
    forall x | x in Latest(recorded) ensures x.recordedAt == now {
      var k :| 0 <= k < |Latest(recorded)| && Latest(recorded)[k] == x;
      assert StableSort.Sort(recorded, Newer)[k] == x;
      assert x in recorded && x in wanted;
    }
  }

  // ---- the service -----------------------------------------------------------------

  lemma {:induction false} RecordAppends(incidents: seq<Incident>, first: seq<Incident>, second: seq<Incident>)
    ensures Record(incidents, first + second) == Record(Record(incidents, first), second)
  {
    if second == [] {
      assert first + second == first;
    } else {
      RecordAppends(incidents, first, second[..|second| - 1]);
      assert (first + second)[..|first + second| - 1] == first + second[..|second| - 1];
    }
  }

  lemma OneMoreRepository(state: State, before: State, setting: Setting, i: nat)
    requires SamePolicy(state, before) && i < |setting.repositories|
    ensures var url := setting.repositories[i];
            var wanted := WantedFor(RepositoryDecision(state, url, setting.matching), setting.clock(url), Some(url),
                  None);
            Record(Record(before.incidents, RepositoriesWanted(before, setting, i)), wanted)
              == Record(before.incidents, RepositoriesWanted(before, setting, i + 1))
  {
    var url := setting.repositories[i];
    var wanted := WantedFor(RepositoryDecision(state, url, setting.matching), setting.clock(url), Some(url), None);
    RecordAppends(before.incidents, RepositoriesWanted(before, setting, i), wanted);
  }

  /** How far the loop over the scripts is: `done` have been handled, `recorded` have their incidents. */
  ghost predicate Reached(before: State, setting: Setting, all: seq<Script>, incidents: seq<Incident>, done: nat,
                          recorded: nat, state: State, scripts: seq<Script>, critical: set<string>) {
    && done <= recorded <= |all| && SamePolicy(state, before)
    && scripts == DisabledAll(before, setting, all[..done]) + all[done..]
    && critical == CriticalIds(before, setting, all[..done])
    && state.quarantined == before.quarantined + BlockedIds(before, setting, all[..done])
    && state.incidents == Record(incidents, ScriptsWanted(before, setting, all[..recorded]))
  }

  lemma OneMoreBlocked(state: State, setting: Setting, all: seq<Script>, i: nat)
    requires i < |all|
    ensures BlockedIds(state, setting, all[..i + 1]) == BlockedIds(state, setting, all[..i])
              + (if BlocksExecution(DecisionOf(state, setting, all[i])) then {all[i].id} else {})
  {
    hide DecisionOf, AtLeast;
    var fewer, more := all[..i], all[..i + 1];
    assert more[i] == all[i] && forall k :: 0 <= k < i ==> more[k] == fewer[k];
  }

  lemma OneMoreCritical(state: State, setting: Setting, all: seq<Script>, i: nat)
    requires i < |all|
    ensures CriticalIds(state, setting, all[..i + 1]) == CriticalIds(state, setting, all[..i])
              + (if RequestsCancellation(DecisionOf(state, setting, all[i])) then {all[i].id} else {})
  {
    hide DecisionOf, AtLeast;
    var fewer, more := all[..i], all[..i + 1];
    assert more[i] == all[i] && forall k :: 0 <= k < i ==> more[k] == fewer[k];
  }

  lemma OneMoreDisabled(state: State, setting: Setting, all: seq<Script>, i: nat)
    requires i < |all|
    ensures DisabledAll(state, setting, all[..i + 1]) + all[i + 1..]
         == (DisabledAll(state, setting, all[..i]) + all[i..])[i := Disabled(state, setting, all[i])]
  {
    hide Disabled;
  }

  lemma OneMoreWanted(state: State, setting: Setting, all: seq<Script>, i: nat, incidents: seq<Incident>)
    requires i < |all|
    ensures Record(Record(incidents, ScriptsWanted(state, setting, all[..i])),
                   WantedFor(DecisionOf(state, setting, all[i]), setting.clock(all[i].id), None, Some(all[i].id)))
         == Record(incidents, ScriptsWanted(state, setting, all[..i + 1]))
  {
    hide DecisionOf, WantedFor;
    var more := all[..i + 1];
    assert more[..i] == all[..i] && more[i] == all[i];
    RecordAppends(incidents, ScriptsWanted(state, setting, all[..i]),
                  WantedFor(DecisionOf(state, setting, all[i]), setting.clock(all[i].id), None, Some(all[i].id)));
  }

  lemma DecisionIsOf(state: State, setting: Setting, script: Script)
    ensures DecisionOf(state, setting, script) == ScriptDecision(state, script.id, script.packageHash, setting.matching)
  {
    hide ScriptDecision;
  }

  lemma RecordedOneMore(before: State, setting: Setting, all: seq<Script>, incidents: seq<Incident>, i: nat,
                        state: State, scripts: seq<Script>, critical: set<string>)
    requires i < |all| && Reached(before, setting, all, incidents, i, i, state, scripts, critical)
    ensures |scripts| == |all| && scripts[i] == all[i]
    ensures var decision := DecisionOf(before, setting, all[i]);
            var wanted := WantedFor(decision, setting.clock(all[i].id), None, Some(all[i].id));
            && decision == ScriptDecision(state, all[i].id, all[i].packageHash, setting.matching)
            && Reached(before, setting, all, incidents, i, i + 1,
                       state.(incidents := Record(state.incidents, wanted)), scripts, critical)
  {
    hide Record, WantedFor, CriticalIds, BlockedIds, ScriptsWanted, DecisionOf, ScriptDecision, Disabled;
    SameDecision(state, before, setting, setting, all[i], all[i]);
    DecisionIsOf(state, setting, all[i]);
    OneMoreWanted(before, setting, all, i, incidents);
    assert |DisabledAll(before, setting, all[..i])| == i && scripts[i] == all[i];
  }

  lemma HandledBlocked(before: State, setting: Setting, all: seq<Script>, incidents: seq<Incident>, i: nat,
                       state: State, scripts: seq<Script>, critical: set<string>)
    requires i < |all| && Reached(before, setting, all, incidents, i, i + 1, state, scripts, critical)
    requires BlocksExecution(DecisionOf(before, setting, all[i]))
    ensures |scripts| == |all|
    ensures Reached(before, setting, all, incidents, i + 1, i + 1,
                    state.(quarantined := state.quarantined + {all[i].id}), scripts[i := all[i].(enabled := false)],
                    if RequestsCancellation(DecisionOf(before, setting, all[i])) then critical + {all[i].id}
                    else critical)
  {
    hide Record, DecisionOf, CriticalIds, BlockedIds, ScriptsWanted, AtLeast;
    OneMoreBlocked(before, setting, all, i);
    OneMoreCritical(before, setting, all, i);
    OneMoreDisabled(before, setting, all, i);
    assert |DisabledAll(before, setting, all[..i])| == i;
    assert Disabled(before, setting, all[i]) == all[i].(enabled := false);
    var was := BlockedIds(before, setting, all[..i]);
    assert (before.quarantined + was) + {all[i].id} == before.quarantined + (was + {all[i].id});
  }

  lemma HandledOther(before: State, setting: Setting, all: seq<Script>, incidents: seq<Incident>, i: nat,
                     state: State, scripts: seq<Script>, critical: set<string>)
    requires i < |all| && Reached(before, setting, all, incidents, i, i + 1, state, scripts, critical)
    requires !BlocksExecution(DecisionOf(before, setting, all[i]))
    ensures Reached(before, setting, all, incidents, i + 1, i + 1, state, scripts, critical)
  {
    hide Record, DecisionOf, CriticalIds, BlockedIds, ScriptsWanted, AtLeast;
    OneMoreBlocked(before, setting, all, i);
    OneMoreCritical(before, setting, all, i);
    OneMoreDisabled(before, setting, all, i);
    CriticalIsBlocked(DecisionOf(before, setting, all[i]));
    assert |DisabledAll(before, setting, all[..i])| == i && scripts[i] == all[i];
    assert Disabled(before, setting, all[i]) == all[i];
    assert !RequestsCancellation(DecisionOf(before, setting, all[i]));
    hide DisabledAll, Disabled;
    assert scripts[i := all[i]] == scripts;
  }

  lemma CriticalIsBlocked(decision: Decision)
    ensures RequestsCancellation(decision) ==> BlocksExecution(decision)
    ensures BlocksExecution(decision) ==> BlocksDistribution(decision)
  {
  }

  lemma ReachedOneMore(before: State, setting: Setting, all: seq<Script>, incidents: seq<Incident>, i: nat,
                       state: State, scripts: seq<Script>, critical: set<string>)
    requires i < |all| && Reached(before, setting, all, incidents, i, i, state, scripts, critical)
    ensures |scripts| == |all| && scripts[i] == all[i]
    ensures var script := all[i];
            var decision := ScriptDecision(state, script.id, script.packageHash, setting.matching);
            var wanted := WantedFor(decision, setting.clock(script.id), None, Some(script.id));
            var recorded := state.(incidents := Record(state.incidents, wanted));
            && decision == DecisionOf(before, setting, script)
            && Reached(before, setting, all, incidents, i, i + 1, recorded, scripts, critical)
            && if BlocksExecution(decision)
               then Reached(before, setting, all, incidents, i + 1, i + 1,
                            recorded.(quarantined := state.quarantined + {script.id}),
                            scripts[i := script.(enabled := false)],
                            if RequestsCancellation(decision) then critical + {script.id} else critical)
               else Reached(before, setting, all, incidents, i + 1, i + 1, recorded, scripts, critical)
  {
    hide Record, DecisionOf, ScriptDecision, WantedFor, Reached, AtLeast;
    RecordedOneMore(before, setting, all, incidents, i, state, scripts, critical);
    var wanted := WantedFor(DecisionOf(before, setting, all[i]), setting.clock(all[i].id), None, Some(all[i].id));
    var recorded := state.(incidents := Record(state.incidents, wanted));
    if BlocksExecution(DecisionOf(before, setting, all[i])) {
      HandledBlocked(before, setting, all, incidents, i, recorded, scripts, critical);
    } else {
      HandledOther(before, setting, all, incidents, i, recorded, scripts, critical);
    }
  }

  /** What the store answers: whether it lists its contents, and whether it disables a script. */
  datatype Store = Store(listsRepositories: bool, listsScripts: bool, disables: string -> bool)

  class BlacklistService {
    var state: State
    var scripts: seq<Script>

    constructor (state: State, scripts: seq<Script>)
      ensures this.state == state && this.scripts == scripts
    {
      this.state, this.scripts := state, scripts;
    }

    /** Puts what is wanted about one repository or script on record, unless it is there already. */
    method RecordIncidents(decision: Decision, now: nat, repository: Option<string>, script: Option<string>)
      modifies this`state
      ensures state == old(state).(incidents := Record(old(state).incidents,
             WantedFor(decision, now, repository, script)))
    {
      if !BlocksDistribution(decision) {
        return;
      }
      ghost var wanted := WantedFor(decision, now, repository, script);
      var i := 0;
      while i < |decision.entries|
        invariant 0 <= i <= |decision.entries|
        invariant state == old(state).(incidents := Record(old(state).incidents, wanted[..i]))
      {
        var incident := Incident(decision.entries[i], now, repository, script);
        assert wanted[..i + 1] == wanted[..i] + [incident];
        if !OnRecord(state.incidents, incident) {
          state := state.(incidents := state.incidents + [incident]);
        }
        i := i + 1;
      }
      assert wanted[..i] == wanted;
    }

    /** On success the whole quarantine has been applied. A store failure stops it where it is: the
        scripts before `reached` have been handled, the one there could not be disabled, and the others
        are untouched. */
    method ApplyQuarantine(setting: Setting, store: Store) returns (r: Result<set<string>, string>, ghost reached: nat)
      modifies this
      ensures r.Ok? ==>
                && state == Quarantined(old(state), setting, old(scripts))
                && scripts == DisabledAll(old(state), setting, old(scripts))
                && r.value == CriticalIds(old(state), setting, old(scripts))
      ensures reached <= |old(scripts)|
      ensures scripts == DisabledAll(old(state), setting, old(scripts)[..reached]) + old(scripts)[reached..]
      ensures state.quarantined == old(state).quarantined + BlockedIds(old(state), setting, old(scripts)[..reached])
      ensures r.Err? && store.listsScripts && store.listsRepositories ==>
                && reached < |old(scripts)| && old(scripts)[reached].enabled
                && BlocksExecution(DecisionOf(old(state), setting, old(scripts)[reached]))
                && !store.disables(old(scripts)[reached].id)
    {
      ghost var before, all := state, scripts;
      reached := 0;
      assert scripts == DisabledAll(before, setting, all[..0]) + all[0..];
      assert BlockedIds(before, setting, all[..0]) == {};
      hide BlockedIds, CriticalIds, DisabledAll, Latest, Record, ScriptsWanted, RepositoriesWanted;
      if !store.listsRepositories {
        return Err("the repositories could not be listed"), reached;
      }
      RecordRepositories(setting);
      if !store.listsScripts {
        return Err("the scripts could not be listed"), reached;
      }
      ghost var recorded := state.incidents;
      r, reached := QuarantineScripts(setting, store, before);
      if r.Ok? {
        assert all[..|all|] == all;
        RecordAppends(before.incidents, RepositoriesWanted(before, setting, |setting.repositories|),
                      ScriptsWanted(before, setting, all));
        assert state.incidents == Record(before.incidents, AllWanted(before, setting, all));
        state := state.(incidents := Latest(state.incidents));
        assert scripts == DisabledAll(before, setting, all) + [];
      }
    }

    method RecordRepositories(setting: Setting)
      modifies this`state
      ensures state == old(state).(incidents :=
                Record(old(state).incidents, RepositoriesWanted(old(state), setting, |setting.repositories|)))
    {
      ghost var before := state;
      assert Record(before.incidents, RepositoriesWanted(before, setting, 0)) == before.incidents;
      hide Record, RepositoryDecision, RepositoriesWanted;
      var i := 0;
      while i < |setting.repositories|
        invariant 0 <= i <= |setting.repositories|
        invariant state == before.(incidents := Record(before.incidents, RepositoriesWanted(before, setting, i)))
      {
        var url := setting.repositories[i];
        var decision := RepositoryDecision(state, url, setting.matching);
        OneMoreRepository(state, before, setting, i);
        RecordIncidents(decision, setting.clock(url), Some(url), None);
        i := i + 1;
      }
    }

    /** One script of the loop: on success it has been handled; on failure only its incidents have. */
    method QuarantineScript(setting: Setting, store: Store, i: nat, soFar: set<string>, ghost before: State,
                            ghost all: seq<Script>, ghost incidents: seq<Incident>)
      returns (ok: bool, critical: set<string>)
      requires i < |all| == |scripts| && Reached(before, setting, all, incidents, i, i, state, scripts, soFar)
      modifies this
      ensures |scripts| == |all|
      ensures ok ==> Reached(before, setting, all, incidents, i + 1, i + 1, state, scripts, critical)
      ensures !ok ==>
                && Reached(before, setting, all, incidents, i, i + 1, state, scripts, soFar)
                && BlocksExecution(DecisionOf(before, setting, all[i])) && all[i].enabled && !store.disables(all[i].id)
    {
      hide Record, DecisionOf, ScriptDecision, AtLeast, WantedFor, CriticalIds, BlockedIds, ScriptsWanted,
            DisabledAll, Reached;
      ReachedOneMore(before, setting, all, incidents, i, state, scripts, soFar);
      var script := scripts[i];
      var decision := ScriptDecision(state, script.id, script.packageHash, setting.matching);
      RecordIncidents(decision, setting.clock(script.id), None, Some(script.id));
      if !BlocksExecution(decision) {
        return true, soFar;
      }
      critical := if RequestsCancellation(decision) then soFar + {script.id} else soFar;
      if script.enabled {
        if !store.disables(script.id) {
          return false, critical;
        }
        scripts := scripts[i := script.(enabled := false)];
      } else {
        assert scripts[i := script.(enabled := false)] == scripts;
      }
      state := state.(quarantined := state.quarantined + {script.id});
      return true, critical;
    }

    method QuarantineScripts(setting: Setting, store: Store, ghost before: State)
      returns (r: Result<set<string>, string>, ghost reached: nat)
      requires SamePolicy(state, before) && state.quarantined == before.quarantined
      modifies this
      ensures reached <= |old(scripts)|
      ensures r.Ok? ==>
                && reached == |old(scripts)|
                && Reached(before, setting, old(scripts), old(state).incidents, reached, reached, state, scripts,
                      r.value)
      ensures r.Err? ==>
                && reached < |old(scripts)| && old(scripts)[reached].enabled
                && BlocksExecution(DecisionOf(before, setting, old(scripts)[reached]))
                && !store.disables(old(scripts)[reached].id)
                && Reached(before, setting, old(scripts), old(state).incidents, reached, reached + 1, state, scripts,
                           CriticalIds(before, setting, old(scripts)[..reached]))
    {
      hide DecisionOf, AtLeast, Reached, CriticalIds;
      ghost var all, incidents := scripts, state.incidents;
      var critical: set<string> := {};
      NothingReached(before, setting, all, state);
      reached := 0;
      var i := 0;
      while i < |scripts|
        invariant 0 <= i == reached <= |all| == |scripts|
        invariant Reached(before, setting, all, incidents, i, i, state, scripts, critical)
        decreases |all| - i
      {
        CriticalSoFar(before, setting, all, incidents, i, state, scripts, critical);
        var ok;
        ok, critical := QuarantineScript(setting, store, i, critical, before, all, incidents);
        if !ok {
          return Err("the script could not be disabled"), reached;
        }
        i := i + 1;
        reached := i;
      }
      return Ok(critical), reached;
    }
  }

  lemma CriticalSoFar(before: State, setting: Setting, all: seq<Script>, incidents: seq<Incident>, i: nat,
                      state: State, scripts: seq<Script>, critical: set<string>)
    requires Reached(before, setting, all, incidents, i, i, state, scripts, critical)
    ensures i <= |all| && critical == CriticalIds(before, setting, all[..i])
  {
  }

  lemma NothingReached(before: State, setting: Setting, all: seq<Script>, state: State)
    requires SamePolicy(state, before) && state.quarantined == before.quarantined
    ensures Reached(before, setting, all, state.incidents, 0, 0, state, all, {})
  {
    assert all[..0] == [] && DisabledAll(before, setting, []) + all == all;
    assert BlockedIds(before, setting, []) == {} && CriticalIds(before, setting, []) == {};
  }
}
