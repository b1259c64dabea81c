/** Checking scripts for updates, one at a time or many with one fetch per repository. */
module UpdateChecks {
  import opened TextOrder
  import opened Wrappers

  type ScriptId = string
  type Url = string

  /** What is read from an installed script's package. */
  datatype Candidate = Candidate(hash: string, version: string, url: Url)

  /** `details` is what a release only carries along: its address, date and notes. */
  datatype Release = Release(version: string, sha256: string, size: nat, details: string)

  type Repository = map<ScriptId, Release>

  datatype CheckError =
    | InstalledPackage(message: string)
    | MissingRepositoryUrl
    | AlreadyChecking
    | Remote(message: string)
    | InvalidRepository(message: string)
    | ScriptMissing
    | PackageTooLarge(limit: nat)
    | ReusedVersion(version: string)
    | Downgrade(available: string)
    | Storage

  datatype UpdateState = UpdateState(
    automatic: bool,
    checkedUrl: Option<Url>,
    lastChecked: Option<nat>,
    lastSuccess: Option<nat>,
    release: Option<Release>,
    lastError: Option<string>)

  type Verdict = Result<UpdateState, CheckError>

  type States = map<ScriptId, UpdateState>

  /** Everything outside: packages, repositories, version numbers, the clock, error texts, and whether the
      database reads and writes a script's state. A version is its place in semantic-version order; the
      places are reals, among which every order on countably many versions finds room. */
  datatype World = World(
    packageLimit: nat,
    installed: ScriptId -> Result<Candidate, string>,
    fetch: Url -> Result<Repository, CheckError>,
    parse: string -> Result<real, string>,
    now: nat,
    text: CheckError -> string,
    canRead: ScriptId -> bool,
    canSave: ScriptId -> bool,
    canNote: ScriptId -> bool)

  const EMPTY := UpdateState(false, None, None, None, None, None)

  function StateOf(states: States, id: ScriptId): UpdateState {
    if id in states then states[id] else EMPTY
  }

  // ---- one script ------------------------------------------------------------------

  /** The check of one repository entry: what is stored afterwards, and the verdict. */
  function CheckEntry(w: World, id: ScriptId, c: Candidate, repository: Repository, states: States): (States, Verdict) {
    if id !in repository then (states, Err(ScriptMissing)) else
    var release := repository[id];
    if release.size > w.packageLimit then (states, Err(PackageTooLarge(w.packageLimit))) else
    var current := w.parse(c.version);
    if current.Err? then (states, Err(InstalledPackage(current.error))) else
    var available := w.parse(release.version);
    if available.Err? then (states, Err(InvalidRepository(available.error)))
    else if available.value < current.value then (states, Err(Downgrade(release.version)))
    else if available.value == current.value && release.sha256 != c.hash
    then (states, Err(ReusedVersion(release.version)))
    else if !w.canRead(id) then (states, Err(Storage))
    else
      var state := UpdateState(StateOf(states, id).automatic, Some(c.url), Some(w.now), Some(w.now), Some(release),
            None);
      if w.canSave(id) then (states[id := state], Ok(state)) else (states, Err(Storage))
  }

  /** A failed check is noted; when that fails too, the verdict says so instead. */
  function NoteFailure(w: World, id: ScriptId, url: Url, states: States, error: CheckError): (States, Verdict) {
    if !w.canNote(id) then (states, Err(Storage)) else
    var previous := StateOf(states, id);
    (states[id := UpdateState(previous.automatic, Some(url), Some(w.now), previous.lastSuccess, None,
          Some(w.text(error)))], Err(error))
  }

  function RecordResult(w: World, id: ScriptId, url: Url, checked: (States, Verdict)): (States, Verdict) {
    if checked.1.Ok? then checked else NoteFailure(w, id, url, checked.0, checked.1.error)
  }

  function CheckWith(w: World, id: ScriptId, c: Candidate, fetched: Result<Repository, CheckError>,
                     states: States): (States, Verdict) {
    match fetched
    case Err(error) => NoteFailure(w, id, c.url, states, error)
    case Ok(repository) => RecordResult(w, id, c.url, CheckEntry(w, id, c, repository, states))
  }

  /** The candidate of a script, or why it is not checked at all. `active` are the checks under way. */
  function FindCandidate(w: World, id: ScriptId, active: set<ScriptId>): Result<Candidate, CheckError> {
    match w.installed(id)
    case Err(message) => Err(InstalledPackage(message))
    case Ok(c) =>
      if id in active then Err(AlreadyChecking)
      else if c.url == "" then Err(MissingRepositoryUrl)
      else Ok(c)
  }

  /** The whole check of one script. */
  function CheckOne(w: World, id: ScriptId, active: set<ScriptId>, states: States): (States, Verdict) {
    match FindCandidate(w, id, active)
    case Err(error) => (states, Err(error))
    case Ok(c) => CheckWith(w, id, c, w.fetch(c.url), states)
  }

  /** An entry is good exactly when the script is listed within the size limit, with a newer version or
      with the installed version and the installed bytes, and the database takes the result. */
  lemma EntryIsGoodIff(w: World, id: ScriptId, c: Candidate, repository: Repository, states: States)
    ensures var (after, verdict) := CheckEntry(w, id, c, repository, states);
            && (verdict.Ok? <==>
                  && id in repository && repository[id].size <= w.packageLimit
                  && w.parse(c.version).Ok? && w.parse(repository[id].version).Ok?
                  && (w.parse(c.version).value < w.parse(repository[id].version).value
                      || (w.parse(c.version).value == w.parse(repository[id].version).value
                          && repository[id].sha256 == c.hash))
                  && w.canRead(id) && w.canSave(id))
            && (verdict.Ok? ==> after == states[id := verdict.value] && verdict.value.release == Some(repository[id])
                                && verdict.value.automatic == StateOf(states, id).automatic)
            && (verdict.Err? ==> after == states)
  {
  }

  /** The release may replace what is installed: not too large, not older, and of the same version only when
      it is the same package. */
  ghost predicate SafeOffer(w: World, id: ScriptId, release: Release) {
    && release.size <= w.packageLimit
    && w.installed(id).Ok?
    && var package := w.installed(id).value;
       && w.parse(package.version).Ok? && w.parse(release.version).Ok?
       && w.parse(package.version).value <= w.parse(release.version).value
       && (w.parse(package.version).value == w.parse(release.version).value ==> release.sha256 == package.hash)
  }

  /** What the database offers for the script, if anything, may replace it. */
  ghost predicate OffersSafely(w: World, states: States, id: ScriptId) {
    StateOf(states, id).release.Some? ==> SafeOffer(w, id, StateOf(states, id).release.value)
  }

  ghost predicate SafeVerdict(w: World, id: ScriptId, verdict: Verdict) {
    verdict.Ok? ==> verdict.value.release.Some? && SafeOffer(w, id, verdict.value.release.value)
  }

  /** The package can be read and names a repository, and no check of the script is under way. */
  ghost predicate Begins(w: World, id: ScriptId, active: set<ScriptId>) {
    w.installed(id).Ok? && id !in active && w.installed(id).value.url != ""
  }

  ghost predicate ListedOnline(w: World, id: ScriptId)
    requires w.installed(id).Ok?
  {
    w.fetch(w.installed(id).value.url).Ok? && id in w.fetch(w.installed(id).value.url).value
  }

  /** A check succeeds exactly when it begins, the script's repository lists a safe offer for it, and the
      database takes the result; then the state says where and when that was found, with nothing wrong, and
      keeps the automatic setting alone of what it said before. */
  lemma SuccessIsNoted(w: World, id: ScriptId, active: set<ScriptId>, states: States)
    ensures var (after, verdict) := CheckOne(w, id, active, states);
            && (verdict.Ok? <==>
                  && Begins(w, id, active) && ListedOnline(w, id)
                  && SafeOffer(w, id, w.fetch(w.installed(id).value.url).value[id]) && w.canRead(id) && w.canSave(id))
            && (verdict.Ok? ==>
                  var url := w.installed(id).value.url;
                  && after == states[id := verdict.value]
                  && verdict.value == UpdateState(StateOf(states, id).automatic, Some(url), Some(w.now), Some(w.now),
                                                  Some(w.fetch(url).value[id]), None))
  {
  }

  /** A check that begins and fails forgets the release on offer, keeps the last success and the automatic
      setting, and leaves its error, or else says that it could not be noted; one that does not begin says
      why and leaves everything. */
  lemma FailedCheckIsNoted(w: World, id: ScriptId, active: set<ScriptId>, states: States)
    ensures var (after, verdict) := CheckOne(w, id, active, states);
            verdict.Err? ==>
              if !Begins(w, id, active) then
                && after == states
                && verdict.error == (if w.installed(id).Err? then InstalledPackage(w.installed(id).error)
                                     else if id in active then AlreadyChecking else MissingRepositoryUrl)
              else if w.canNote(id) then
                after == states[id := StateOf(states, id).(checkedUrl := Some(w.installed(id).value.url),
                                       lastChecked := Some(w.now), release := None,
                                       lastError := Some(w.text(verdict.error)))]
              else after == states && verdict.error == Storage
  {
    var found := FindCandidate(w, id, active);
    if found.Ok? {
      var fetched := w.fetch(found.value.url);
      if fetched.Ok? {
        EntryIsGoodIff(w, id, found.value, fetched.value, states);
      }
    }
  }

  /** A check succeeds with a safe offer only. Whatever was stored before, a check that runs and can store
      its result leaves a safe offer or none; no check turns a safe offer into an unsafe one. */
  lemma CheckOffersSafely(w: World, id: ScriptId, active: set<ScriptId>, states: States)
    ensures var (after, verdict) := CheckOne(w, id, active, states);
            && SafeVerdict(w, id, verdict)
            && (Begins(w, id, active) && w.canNote(id) ==> OffersSafely(w, after, id))
            && (OffersSafely(w, states, id) ==> OffersSafely(w, after, id))
  {
    FailedCheckIsNoted(w, id, active, states);
    SuccessIsNoted(w, id, active, states);
    var (after, verdict) := CheckOne(w, id, active, states);
    hide CheckOne, SafeOffer;
    if verdict.Ok? {
      assert StateOf(after, id) == verdict.value;
    } else if Begins(w, id, active) && w.canNote(id) {
      assert StateOf(after, id).release == None;
    } else {
      assert after == states;
    }
  }

  lemma AloneOffersSafely(w: World, active: set<ScriptId>, id: ScriptId, before: States, after: States,
                          verdict: Verdict)
    requires CheckedAlone(w, active, id, before, after, verdict)
    ensures SafeVerdict(w, id, verdict) && (OffersSafely(w, before, id) ==> OffersSafely(w, after, id))
  {
    CheckOffersSafely(w, id, active, before);
    hide CheckOne, SafeOffer;
  }

  /** The error is what is wrong with the script's package, its repository, or the release listed there. */
  ghost predicate Wrong(w: World, id: ScriptId, error: CheckError)
    requires w.installed(id).Ok?
  {
    var package := w.installed(id).value;
    var fetched := w.fetch(package.url);
    if fetched.Err? then error == fetched.error
    else if id !in fetched.value then error == ScriptMissing
    else
      var release := fetched.value[id];
      match error
      case PackageTooLarge(limit) => limit == w.packageLimit && limit < release.size
      case InstalledPackage(message) => w.parse(package.version) == Err(message)
      case InvalidRepository(message) => w.parse(release.version) == Err(message)
      case Downgrade(available) =>
        && available == release.version && w.parse(available).Ok? && w.parse(package.version).Ok?
        && w.parse(available).value < w.parse(package.version).value
      case ReusedVersion(version) =>
        && version == release.version && w.parse(version).Ok? && w.parse(version) == w.parse(package.version)
        && release.sha256 != package.hash
      case Storage => !w.canRead(id) || !w.canSave(id)
      case _ => false
  }

  /** A check that begins and whose failure can be noted reports what is wrong. */
  lemma ErrorIsTrue(w: World, id: ScriptId, active: set<ScriptId>, states: States)
    requires Begins(w, id, active) && w.canNote(id) && CheckOne(w, id, active, states).1.Err?
    ensures Wrong(w, id, CheckOne(w, id, active, states).1.error)
  {
  }

  // ---- locality --------------------------------------------------------------------

  /** Two databases that say the same of a script. */
  ghost predicate Same(a: States, b: States, id: ScriptId) {
    (id in a <==> id in b) && StateOf(a, id) == StateOf(b, id)
  }

  /** Only this script's state may differ. */
  ghost predicate Elsewhere(before: States, after: States, id: ScriptId) {
    && after.Keys <= before.Keys + {id} && before.Keys <= after.Keys
    && forall x | x in before && x != id :: after[x] == before[x]
  }

  lemma EntryIsLocal(w: World, id: ScriptId, c: Candidate, repository: Repository, a: States, b: States)
    requires Same(a, b, id)
    ensures var (after, verdict) := CheckEntry(w, id, c, repository, a);
            var (other, same) := CheckEntry(w, id, c, repository, b);
            verdict == same && Same(after, other, id) && Elsewhere(a, after, id)
  {
  }

  lemma NoteIsLocal(w: World, id: ScriptId, url: Url, error: CheckError, a: States, b: States)
    requires Same(a, b, id)
    ensures var (after, verdict) := NoteFailure(w, id, url, a, error);
            var (other, same) := NoteFailure(w, id, url, b, error);
            verdict == same && Same(after, other, id) && Elsewhere(a, after, id)
  {
  }

  /** A check reads and writes its own script's state only. */
  lemma CheckIsLocal(w: World, id: ScriptId, c: Candidate, fetched: Result<Repository, CheckError>, a: States,
                     b: States)
    requires Same(a, b, id)
    ensures var (after, verdict) := CheckWith(w, id, c, fetched, a);
            var (other, same) := CheckWith(w, id, c, fetched, b);
            verdict == same && Same(after, other, id) && Elsewhere(a, after, id)
  {
    hide CheckEntry, NoteFailure, Same;
    match fetched
    case Err(error) => NoteIsLocal(w, id, c.url, error, a, b);
    case Ok(repository) =>
      EntryIsLocal(w, id, c, repository, a, b);
      var (after, verdict) := CheckEntry(w, id, c, repository, a);
      var other := CheckEntry(w, id, c, repository, b).0;
      if verdict.Err? {
        NoteIsLocal(w, id, c.url, verdict.error, after, other);
      }
  }

  // ---- many scripts ----------------------------------------------------------------

  /** The state a script has after its own check, and its verdict, from the states at the start. */
  ghost predicate CheckedAlone(w: World, active: set<ScriptId>, id: ScriptId, before: States, after: States,
                               verdict: Verdict) {
    var alone := CheckOne(w, id, active, before);
    Same(after, alone.0, id) && verdict == alone.1
  }

  /** Checking the scripts one after another. */
  function CheckInTurn(w: World, ids: seq<ScriptId>, active: set<ScriptId>,
                       states: States): (States, map<ScriptId, Verdict>) {
    if ids == [] then (states, map[])
    else
      var (before, verdicts) := CheckInTurn(w, ids[..|ids| - 1], active, states);
      var id := ids[|ids| - 1];
      var (after, verdict) := CheckOne(w, id, active, before);
      (after, verdicts[id := verdict])
  }

  ghost predicate NoDuplicates(ids: seq<ScriptId>) {
    forall i, j :: 0 <= i < j < |ids| ==> ids[i] != ids[j]
  }

  lemma CheckOneIsLocal(w: World, id: ScriptId, active: set<ScriptId>, a: States, b: States)
    requires Same(a, b, id)
    ensures CheckedAlone(w, active, id, b, CheckOne(w, id, active, a).0, CheckOne(w, id, active, a).1)
    ensures Elsewhere(a, CheckOne(w, id, active, a).0, id)
  {
    hide CheckWith;
    var found := FindCandidate(w, id, active);
    if found.Ok? {
      CheckIsLocal(w, id, found.value, w.fetch(found.value.url), a, b);
    }
  }

  /** Every script ends as if it had been checked alone, whatever else is checked before it or after. */
  lemma {:induction false} InTurnIsAlone(w: World, ids: seq<ScriptId>, active: set<ScriptId>, states: States)
    requires NoDuplicates(ids)
    ensures var (after, verdicts) := CheckInTurn(w, ids, active, states);
            && (forall id :: id in verdicts <==> id in ids)
            && (forall id | id in ids :: CheckedAlone(w, active, id, states, after, verdicts[id]))
            && (forall id: ScriptId | id !in ids :: Same(after, states, id))
  {
    if ids != [] {
      var init := ids[..|ids| - 1];
      var id := ids[|ids| - 1];
      assert ids == init + [id];
      assert id !in init;
      InTurnIsAlone(w, init, active, states);
      var (before, verdicts) := CheckInTurn(w, init, active, states);
      CheckOneIsLocal(w, id, active, before, states);
      var (after, verdict) := CheckOne(w, id, active, before);
      hide CheckOne, Same, Elsewhere;
      forall other: ScriptId | other != id ensures Same(after, states, other) <==> Same(before, states, other) {
        ElsewhereIsSame(before, after, id, other, states);
      }
      forall other | other in init ensures CheckedAlone(w, active, other, states, after, verdicts[other]) {
        ElsewhereIsSame(before, after, id, other, CheckOne(w, other, active, states).0);
      }
    }
  }

  lemma ElsewhereIsSame(before: States, after: States, id: ScriptId, other: ScriptId, third: States)
    requires Elsewhere(before, after, id) && other != id
    ensures Same(after, third, other) <==> Same(before, third, other)
  {
  }

  // ---- one fetch per repository ----------------------------------------------------

  datatype Found = Found(id: ScriptId, candidate: Candidate)

  type Groups = map<Url, seq<Found>>

  predicate Listed(groups: Groups, id: ScriptId, url: Url) {
    url in groups && exists k :: 0 <= k < |groups[url]| && groups[url][k].id == id
  }

  /** Every held script stands once, under its own repository, and no other script stands anywhere. */
  ghost predicate Grouped(w: World, active: set<ScriptId>, held: set<ScriptId>, groups: Groups) {
    && (forall url | url in groups :: groups[url] != [])
    && (forall url, k | url in groups && 0 <= k < |groups[url]| :: Fits(w, active, held, url, groups[url][k]))
    && (forall url, j, k | url in groups && 0 <= j < k < |groups[url]| :: groups[url][j].id != groups[url][k].id)
    && (forall id | id in held ::
          FindCandidate(w, id, active).Ok? && Listed(groups, id, FindCandidate(w, id, active).value.url))
  }

  ghost predicate Fits(w: World, active: set<ScriptId>, held: set<ScriptId>, url: Url, found: Found) {
    found.id in held && FindCandidate(w, found.id, active) == Ok(found.candidate) && found.candidate.url == url
  }

  function Add(groups: Groups, found: Found): Groups {
    var url := found.candidate.url;
    groups[url := (if url in groups then groups[url] else []) + [found]]
  }

  lemma AddKeepsGrouped(w: World, active: set<ScriptId>, held: set<ScriptId>, groups: Groups, found: Found)
    requires Grouped(w, active, held, groups) && found.id !in held
    requires FindCandidate(w, found.id, active) == Ok(found.candidate)
    ensures Grouped(w, active, held + {found.id}, Add(groups, found))
  {
    hide FindCandidate;
    var after := Add(groups, found);
    AddedFits(w, active, held, groups, found);
    forall id | id in held + {found.id}
      ensures FindCandidate(w, id, active).Ok? && Listed(after, id, FindCandidate(w, id, active).value.url)
    {
      AddedIsListed(groups, found, id, FindCandidate(w, id, active).value.url);
    }
  }

  lemma AddedIsListed(groups: Groups, found: Found, id: ScriptId, url: Url)
    requires if id == found.id then url == found.candidate.url else Listed(groups, id, url)
    ensures Listed(Add(groups, found), id, url)
  {
    var after: Groups := Add(groups, found);
    if id == found.id {
      var last := |after[url]| - 1;
      assert after[url][last].id == id;
    } else {
      var k :| 0 <= k < |groups[url]| && groups[url][k].id == id;
      assert after[url][k].id == id;
    }
  }

  lemma AddedFits(w: World, active: set<ScriptId>, held: set<ScriptId>, groups: Groups, found: Found)
    requires Grouped(w, active, held, groups) && found.id !in held
    requires FindCandidate(w, found.id, active) == Ok(found.candidate)
    ensures var after := Add(groups, found);
            && (forall url | url in after :: after[url] != [])
            && (forall url, k | url in after && 0 <= k < |after[url]| ::
                  Fits(w, active, held + {found.id}, url, after[url][k]))
            && (forall url, j, k | url in after && 0 <= j < k < |after[url]| :: after[url][j].id != after[url][k].id)
  {
    hide FindCandidate, Listed;
    var after := Add(groups, found);
    var same := if found.candidate.url in groups then groups[found.candidate.url] else [];
    forall url: Url, k: nat | url in after && k < |after[url]|
      ensures Fits(w, active, held + {found.id}, url, after[url][k])
    {
      if url != found.candidate.url || k < |same| {
        assert Fits(w, active, held, url, groups[url][k]);
      }
    }
    forall url: Url, j: nat, k: nat | url in after && j < k < |after[url]|
      ensures after[url][j].id != after[url][k].id
    {
      if url == found.candidate.url && k == |same| {
        assert Fits(w, active, held, url, groups[url][j]);
      }
    }
  }

  /** What is settled while repositories are checked: these scripts are done, the rest untouched. */
  ghost predicate Settled(w: World, active: set<ScriptId>, done: set<ScriptId>, before: States, now: States,
                          results: map<ScriptId, Verdict>) {
    && (forall id | id in done :: id in results && CheckedAlone(w, active, id, before, now, results[id]))
    && (forall id: ScriptId | id !in done :: Same(now, before, id))
  }

  lemma SettleOneMore(w: World, active: set<ScriptId>, done: set<ScriptId>, before: States, now: States,
                      results: map<ScriptId, Verdict>, found: Found)
    requires Settled(w, active, done, before, now, results) && found.id !in done
    requires FindCandidate(w, found.id, active) == Ok(found.candidate)
    ensures var (after, verdict) := CheckWith(w, found.id, found.candidate, w.fetch(found.candidate.url), now);
            Settled(w, active, done + {found.id}, before, after, results[found.id := verdict])
  {
    var id := found.id;
    assert CheckOne(w, id, active, now) == CheckWith(w, id, found.candidate, w.fetch(found.candidate.url), now);
    CheckOneIsLocal(w, id, active, now, before);
    var (after, verdict) := CheckOne(w, id, active, now);
    hide FindCandidate, CheckWith, CheckOne, Same, Elsewhere;
    forall other: ScriptId | other !in done + {id} ensures Same(after, before, other) {
      ElsewhereIsSame(now, after, id, other, before);
    }
    forall other | other in done ensures CheckedAlone(w, active, other, before, after, results[other]) {
      ElsewhereIsSame(now, after, id, other, CheckOne(w, other, active, before).0);
    }
  }

  class UpdateChecker {
    var states: States
    var active: set<ScriptId>
    var fetched: seq<Url>

    constructor (states: States, active: set<ScriptId>)
      ensures this.states == states && this.active == active && fetched == []
    {
      this.states, this.active, fetched := states, active, [];
    }

    method AcquireGuard(id: ScriptId) returns (ok: bool)
      modifies this`active
      ensures ok <==> id !in old(active)
      ensures active == old(active) + {id}
    {
      ok := id !in active;
      active := active + {id};
    }

    method FetchRepository(w: World, url: Url) returns (r: Result<Repository, CheckError>)
      modifies this`fetched
      ensures fetched == old(fetched) + [url] && r == w.fetch(url)
    {
      fetched := fetched + [url];
      r := w.fetch(url);
    }

    /** The candidate with its guard held, or an error and no guard. */
    method InstalledUpdateCandidate(w: World, id: ScriptId) returns (r: Result<Candidate, CheckError>)
      modifies this`active
      ensures r == FindCandidate(w, id, old(active))
      ensures active == if r.Ok? then old(active) + {id} else old(active)
    {
      var installed := w.installed(id);
      if installed.Err? {
        return Err(InstalledPackage(installed.error));
      }
      var acquired := AcquireGuard(id);
      if !acquired {
        return Err(AlreadyChecking);
      }
      if installed.value.url == "" {
        active := active - {id};
        return Err(MissingRepositoryUrl);
      }
      return Ok(installed.value);
    }

    method CheckRepositoryEntry(w: World, id: ScriptId, c: Candidate, repository: Repository) returns (r: Verdict)
      modifies this`states
      ensures (states, r) == CheckEntry(w, id, c, repository, old(states))
    {
      if id !in repository {
        return Err(ScriptMissing);
      }
      var release := repository[id];
      if release.size > w.packageLimit {
        return Err(PackageTooLarge(w.packageLimit));
      }
      var current := w.parse(c.version);
      if current.Err? {
        return Err(InstalledPackage(current.error));
      }
      var available := w.parse(release.version);
      if available.Err? {
        return Err(InvalidRepository(available.error));
      }
      if available.value < current.value {
        return Err(Downgrade(release.version));
      }
      if available.value == current.value && release.sha256 != c.hash {
        return Err(ReusedVersion(release.version));
      }
      if !w.canRead(id) {
        return Err(Storage);
      }
      var existing := StateOf(states, id);
      var state := UpdateState(existing.automatic, Some(c.url), Some(w.now), Some(w.now), Some(release), None);
      if !w.canSave(id) {
        return Err(Storage);
      }
      states := states[id := state];
      return Ok(state);
    }

    method RecordFailure(w: World, id: ScriptId, url: Url, error: CheckError) returns (r: Verdict)
      modifies this`states
      ensures (states, r) == NoteFailure(w, id, url, old(states), error)
    {
      if !w.canNote(id) {
        return Err(Storage);
      }
      var existing := StateOf(states, id);
      states := states[id := UpdateState(existing.automatic, Some(url), Some(w.now), existing.lastSuccess, None,
                                         Some(w.text(error)))];
      return Err(error);
    }

    method CheckFetched(w: World, id: ScriptId, c: Candidate, repository: Result<Repository, CheckError>)
      returns (r: Verdict)
      modifies this`states
      ensures (states, r) == CheckWith(w, id, c, repository, old(states))
    {
      if repository.Err? {
        r := RecordFailure(w, id, c.url, repository.error);
        return;
      }
      r := CheckRepositoryEntry(w, id, c, repository.value);
      if r.Err? {
        r := RecordFailure(w, id, c.url, r.error);
      }
    }

    method CheckScriptUpdate(w: World, id: ScriptId) returns (r: Verdict)
      modifies this
      ensures (states, r) == CheckOne(w, id, old(active), old(states))
      ensures SafeVerdict(w, id, r)
      ensures active == old(active)
    {
      CheckOffersSafely(w, id, active, states);
      hide SafeVerdict, OffersSafely;
      var candidate := InstalledUpdateCandidate(w, id);
      if candidate.Err? {
        return Err(candidate.error);
      }
      var repository := FetchRepository(w, candidate.value.url);
      r := CheckFetched(w, id, candidate.value, repository);
      active := active - {id};
    }

    /** The scripts that can be checked, by repository, each with its guard held; the errors of the rest. */
    method GroupCandidates(w: World, ids: seq<ScriptId>)
      returns (groups: Groups, results: map<ScriptId, Verdict>, ghost held: set<ScriptId>)
      modifies this`active
      ensures Grouped(w, old(active), held, groups) && held !! old(active) && active == old(active) + held
      ensures forall id :: id in held <==> id in ids && FindCandidate(w, id, old(active)).Ok?
      ensures forall id | id in ids && id !in held ::
                id in results && results[id] == Err(FindCandidate(w, id, old(active)).error)
      ensures forall id | id in results :: id in ids
    {
      groups, results, held := map[], map[], {};
      ghost var before := active;
      var i := 0;
      while i < |ids|
        invariant 0 <= i <= |ids|
        invariant Grouped(w, before, held, groups) && held !! before && active == before + held
        invariant forall id :: id in held <==> id in ids[..i] && FindCandidate(w, id, before).Ok?
        invariant forall id | id in ids[..i] && id !in held ::
                    id in results && results[id] == Err(FindCandidate(w, id, before).error)
        invariant forall id | id in results :: id in ids[..i]
      {
        var id := ids[i];
        assert ids[..i + 1] == ids[..i] + [id];
        assert id !in held ==> FindCandidate(w, id, active) == FindCandidate(w, id, before);
        hide Grouped;
        var candidate := InstalledUpdateCandidate(w, id);
        if candidate.Ok? {
          AddKeepsGrouped(w, before, held, groups, Found(id, candidate.value));
          groups := Add(groups, Found(id, candidate.value));
          held := held + {id};
        } else {
          results := results[id := Err(candidate.error)];
        }
        i := i + 1;
      }
      assert ids[..i] == ids;
    }

    /** Every script of one repository, from the one reply, its guard let go when it is done. */
    method CheckGroup(w: World, url: Url, group: seq<Found>, repository: Result<Repository, CheckError>,
                      soFar: map<ScriptId, Verdict>, ghost before: States, ghost others: set<ScriptId>,
                      ghost held: set<ScriptId>, ghost done: set<ScriptId>)
      returns (results: map<ScriptId, Verdict>)
      requires repository == w.fetch(url) && held !! others
      requires Fresh(w, others, held, done, url, group)
      requires Settled(w, others, done, before, states, soFar) && active == others + (held - done)
      modifies this`states, this`active
      ensures Settled(w, others, done + IdsOf(group), before, states, results)
      ensures active == others + (held - (done + IdsOf(group)))
      ensures Overwritten(soFar, IdsOf(group), results)
    {
      hide Settled, FindCandidate, CheckWith, Fresh, IdsOf, Overwritten, GroupDone;
      results := soFar;
      var i := 0;
      NothingDone(w, others, held, done, group, before, states, soFar);
      while i < |group|
        invariant 0 <= i <= |group|
        invariant GroupDone(w, others, held, done, group, i, before, states, soFar, results, active)
      {
        var found := group[i];
        OneMoreDone(w, others, held, done, url, group, i, before, states, soFar, results, active);
        var verdict := CheckFetched(w, found.id, found.candidate, repository);
        results := results[found.id := verdict];
        active := active - {found.id};
        i := i + 1;
      }
      AllOfGroupDone(w, others, held, done, group, before, states, soFar, results, active);
    }

    /** Every repository in order of its address, each fetched once. */
    method CheckGroups(w: World, groups: Groups, early: map<ScriptId, Verdict>, ghost others: set<ScriptId>,
                       ghost held: set<ScriptId>)
      returns (results: map<ScriptId, Verdict>, ghost urls: seq<Url>)
      requires Grouped(w, others, held, groups) && held !! others && active == others + held
      modifies this
      ensures Settled(w, others, held, old(states), states, results) && active == others
      ensures Overwritten(early, held, results)
      ensures fetched == old(fetched) + urls && Increasing(urls)
      ensures forall url :: url in urls <==> url in groups
    {
      hide FindCandidate, Settled, Grouped, GroupsDone, IdsOf, Visited, Overwritten, Fresh, Increasing;
      ghost var before, seen := states, fetched;
      results, urls := early, [];
      var left := groups.Keys;
      ghost var done: set<ScriptId> := {};
      NothingVisited(w, others, groups, states, early);
      assert groups.Keys - left == {};
      while left != {}
        invariant left <= groups.Keys && done == GroupsDone(groups, groups.Keys - left) && done <= held
        invariant Settled(w, others, done, before, states, results) && active == others + (held - done)
        invariant Overwritten(early, done, results)
        invariant fetched == seen + urls && Visited(groups, left, urls)
        decreases left
      {
        SmallestExists(left);
        var url :| Smallest(left, url);
        VisitOneMore(groups, left, urls, url);
        GroupIsFresh(w, others, held, groups, groups.Keys - left, url);
        GroupsDoneOneMore(groups, groups.Keys - left, url);
        var repository := FetchRepository(w, url);
        ghost var was := results;
        results := CheckGroup(w, url, groups[url], repository, results, before, others, held, done);
        OverwriteMore(early, done, was, IdsOf(groups[url]), results);
        done := done + IdsOf(groups[url]);
        urls := urls + [url];
        assert groups.Keys - (left - {url}) == (groups.Keys - left) + {url};
        left := left - {url};
      }
      assert groups.Keys - left == groups.Keys;
      AllHeldAreDone(w, others, held, groups);
      AllVisited(groups, urls);
    }

    /** One fetch per repository, in order of their addresses, and every script as if it had been checked
        alone; no success but with a safe offer, and every safe offer stays safe. */
    method CheckScriptUpdates(w: World, ids: seq<ScriptId>)
      returns (results: map<ScriptId, Verdict>, ghost urls: seq<Url>)
      modifies this
      ensures forall id :: id in results <==> id in ids
      ensures forall id | id in ids :: CheckedAlone(w, old(active), id, old(states), states, results[id])
      ensures forall id: ScriptId | id !in ids :: Same(states, old(states), id)
      ensures forall id | id in ids :: SafeVerdict(w, id, results[id])
      ensures forall id: ScriptId | OffersSafely(w, old(states), id) :: OffersSafely(w, states, id)
      ensures active == old(active)
      ensures fetched == old(fetched) + urls && Increasing(urls)
      ensures forall url :: url in urls <==> NeedsFetch(w, old(active), ids, url)
    {
      ghost var before, others := states, active;
      var groups, early;
      ghost var held;
      groups, early, held := GroupCandidates(w, ids);
      GroupsAreNeeded(w, others, held, groups, ids);
      hide Grouped, NeedsFetch, FindCandidate, Increasing;
      results, urls := CheckGroups(w, groups, early, others, held);
      forall id | id in ids ensures CheckedAlone(w, others, id, before, states, results[id]) {
        if id !in held {
          UncheckedIsAlone(w, others, id, before);
        }
      }
      BatchOffersSafely(w, ids, others, before, states, results);
    }
  }

  lemma BatchOffersSafely(w: World, ids: seq<ScriptId>, active: set<ScriptId>, before: States, after: States,
                          results: map<ScriptId, Verdict>)
    requires forall id | id in ids :: id in results && CheckedAlone(w, active, id, before, after, results[id])
    requires forall id: ScriptId | id !in ids :: Same(after, before, id)
    ensures forall id | id in ids :: SafeVerdict(w, id, results[id])
    ensures forall id: ScriptId | OffersSafely(w, before, id) :: OffersSafely(w, after, id)
  {
    hide CheckedAlone, SafeVerdict, SafeOffer, StateOf;
    forall id: ScriptId
      ensures (id in ids ==> SafeVerdict(w, id, results[id]))
           && (OffersSafely(w, before, id) ==> OffersSafely(w, after, id))
    {
      if id in ids {
        AloneOffersSafely(w, active, id, before, after, results[id]);
      } else {
        assert Same(after, before, id);
      }
    }
  }

  /** A repository's scripts, each once and none of them done. */
  ghost predicate Fresh(w: World, active: set<ScriptId>, held: set<ScriptId>, done: set<ScriptId>, url: Url,
                        group: seq<Found>) {
    && (forall k | 0 <= k < |group| :: Fits(w, active, held, url, group[k]) && group[k].id !in done)
    && (forall j, k | 0 <= j < k < |group| :: group[j].id != group[k].id)
  }

  lemma FreshAt(w: World, active: set<ScriptId>, held: set<ScriptId>, done: set<ScriptId>, url: Url,
                group: seq<Found>, i: nat)
    requires Fresh(w, active, held, done, url, group) && i < |group|
    ensures FindCandidate(w, group[i].id, active) == Ok(group[i].candidate) && group[i].candidate.url == url
    ensures group[i].id in held && group[i].id !in done + IdsOf(group[..i])
    ensures IdsOf(group[..i + 1]) == IdsOf(group[..i]) + {group[i].id}
  {
    hide FindCandidate;
    assert Fits(w, active, held, url, group[i]);
    IdsOneMore(group, i);
  }

  /** The first scripts of a repository's group are settled and their guards let go. */
  ghost predicate GroupDone(w: World, others: set<ScriptId>, held: set<ScriptId>, done: set<ScriptId>,
                            group: seq<Found>, i: nat, before: States, now: States, soFar: map<ScriptId, Verdict>,
                            results: map<ScriptId, Verdict>, active: set<ScriptId>)
    requires i <= |group|
  {
    && Settled(w, others, done + IdsOf(group[..i]), before, now, results)
    && active == others + (held - (done + IdsOf(group[..i])))
    && Overwritten(soFar, IdsOf(group[..i]), results)
  }

  lemma NothingDone(w: World, others: set<ScriptId>, held: set<ScriptId>, done: set<ScriptId>, group: seq<Found>,
                    before: States, now: States, soFar: map<ScriptId, Verdict>)
    requires Settled(w, others, done, before, now, soFar)
    ensures GroupDone(w, others, held, done, group, 0, before, now, soFar, soFar, others + (held - done))
  {
    hide Settled;
    assert IdsOf(group[..0]) == {} && done + {} == done;
  }

  lemma AllOfGroupDone(w: World, others: set<ScriptId>, held: set<ScriptId>, done: set<ScriptId>, group: seq<Found>,
                       before: States, now: States, soFar: map<ScriptId, Verdict>, results: map<ScriptId, Verdict>,
                       active: set<ScriptId>)
    requires GroupDone(w, others, held, done, group, |group|, before, now, soFar, results, active)
    ensures Settled(w, others, done + IdsOf(group), before, now, results)
    ensures active == others + (held - (done + IdsOf(group))) && Overwritten(soFar, IdsOf(group), results)
  {
    hide Settled, Overwritten, IdsOf;
    assert group[..|group|] == group;
  }

  lemma OneMoreDone(w: World, others: set<ScriptId>, held: set<ScriptId>, done: set<ScriptId>, url: Url,
                    group: seq<Found>, i: nat, before: States, now: States, soFar: map<ScriptId, Verdict>,
                    results: map<ScriptId, Verdict>, active: set<ScriptId>)
    requires held !! others && Fresh(w, others, held, done, url, group) && i < |group|
    requires GroupDone(w, others, held, done, group, i, before, now, soFar, results, active)
    ensures var (after, verdict) := CheckWith(w, group[i].id, group[i].candidate, w.fetch(url), now);
            GroupDone(w, others, held, done, group, i + 1, before, after, soFar, results[group[i].id := verdict],
                      active - {group[i].id})
  {
    hide Settled, FindCandidate, CheckWith, Fresh, IdsOf, Overwritten;
    var found, settled := group[i], done + IdsOf(group[..i]);
    FreshAt(w, others, held, done, url, group, i);
    SettleOneMore(w, others, settled, before, now, results, found);
    OverwriteOne(soFar, IdsOf(group[..i]), results, found.id,
          CheckWith(w, found.id, found.candidate, w.fetch(url), now).1);
    assert settled + {found.id} == done + IdsOf(group[..i + 1]);
  }

  lemma OverwriteOne(early: map<ScriptId, Verdict>, done: set<ScriptId>, results: map<ScriptId, Verdict>,
                     id: ScriptId, verdict: Verdict)
    requires Overwritten(early, done, results)
    ensures Overwritten(early, done + {id}, results[id := verdict])
  {
  }

  lemma OverwriteMore(early: map<ScriptId, Verdict>, done: set<ScriptId>, results: map<ScriptId, Verdict>,
                      more: set<ScriptId>, after: map<ScriptId, Verdict>)
    requires Overwritten(early, done, results) && Overwritten(results, more, after)
    ensures Overwritten(early, done + more, after)
  {
  }

  /** The results are the early ones but for these scripts. */
  ghost predicate Overwritten(early: map<ScriptId, Verdict>, done: set<ScriptId>, results: map<ScriptId, Verdict>) {
    results.Keys == early.Keys + done && forall id | id in early && id !in done :: results[id] == early[id]
  }

  /** The repositories reached so far, in order, all before those left. */
  ghost predicate Visited(groups: Groups, left: set<Url>, urls: seq<Url>) {
    && Increasing(urls)
    && (forall url :: url in urls <==> url in groups && url !in left)
    && (forall url, other | url in urls && other in left :: TextLess(url, other))
  }

  lemma NothingVisited(w: World, active: set<ScriptId>, groups: Groups, states: States, early: map<ScriptId, Verdict>)
    ensures Settled(w, active, {}, states, states, early) && Overwritten(early, {}, early)
    ensures Visited(groups, groups.Keys, []) && GroupsDone(groups, {}) == {}
  {
  }

  lemma AllVisited(groups: Groups, urls: seq<Url>)
    requires Visited(groups, {}, urls)
    ensures Increasing(urls) && forall url :: url in urls <==> url in groups
  {
  }

  lemma VisitOneMore(groups: Groups, left: set<Url>, urls: seq<Url>, url: Url)
    requires Visited(groups, left, urls) && left <= groups.Keys && Smallest(left, url)
    ensures url in groups && Visited(groups, left - {url}, urls + [url])
  {
  }

  ghost predicate Increasing(urls: seq<Url>) {
    forall i, j :: 0 <= i < j < |urls| ==> TextLess(urls[i], urls[j])
  }

  lemma UncheckedIsAlone(w: World, active: set<ScriptId>, id: ScriptId, states: States)
    requires FindCandidate(w, id, active).Err?
    ensures CheckOne(w, id, active, states) == (states, Err(FindCandidate(w, id, active).error))
  {
  }

  function IdsOf(group: seq<Found>): set<ScriptId> {
    set k | 0 <= k < |group| :: group[k].id
  }

  lemma IdsOneMore(group: seq<Found>, i: nat)
    requires i < |group|
    requires forall j, k | 0 <= j < k < |group| :: group[j].id != group[k].id
    ensures IdsOf(group[..i + 1]) == IdsOf(group[..i]) + {group[i].id} && group[i].id !in IdsOf(group[..i])
  {
    assert group[..i + 1] == group[..i] + [group[i]];
    forall id ensures id in IdsOf(group[..i + 1]) <==> id in IdsOf(group[..i]) + {group[i].id} {
      if id in IdsOf(group[..i]) {
        var k :| 0 <= k < i && group[..i][k].id == id;
        assert group[..i + 1][k].id == id;
      }
      if id == group[i].id {
        assert group[..i + 1][i].id == id;
      }
    }
  }

  /** The scripts of these repositories. */
  ghost function GroupsDone(groups: Groups, urls: set<Url>): set<ScriptId> {
    set url, k | url in urls && url in groups && 0 <= k < |groups[url]| :: groups[url][k].id
  }

  lemma GroupsDoneOneMore(groups: Groups, urls: set<Url>, url: Url)
    requires url in groups
    ensures GroupsDone(groups, urls + {url}) == GroupsDone(groups, urls) + IdsOf(groups[url])
  {
    forall id ensures id in GroupsDone(groups, urls + {url}) <==> id in GroupsDone(groups, urls) + IdsOf(groups[url]) {
      if id in GroupsDone(groups, urls) {
        var other, k :| other in urls && other in groups && 0 <= k < |groups[other]| && groups[other][k].id == id;
        assert other in urls + {url};
      }
      if id in IdsOf(groups[url]) {
        var k :| 0 <= k < |groups[url]| && groups[url][k].id == id;
        assert url in urls + {url};
      }
    }
  }

  /** A repository not yet reached has only scripts that are not done. */
  lemma GroupIsFresh(w: World, active: set<ScriptId>, held: set<ScriptId>, groups: Groups, reached: set<Url>, url: Url)
    requires Grouped(w, active, held, groups) && url in groups && url !in reached
    ensures Fresh(w, active, held, GroupsDone(groups, reached), url, groups[url])
    ensures IdsOf(groups[url]) <= held
  {
    forall k | 0 <= k < |groups[url]|
      ensures Fits(w, active, held, url, groups[url][k]) && groups[url][k].id !in GroupsDone(groups, reached)
    {
      assert Fits(w, active, held, url, groups[url][k]);
      forall other, j | other in reached && other in groups && 0 <= j < |groups[other]|
        ensures groups[other][j].id != groups[url][k].id
      {
        assert Fits(w, active, held, other, groups[other][j]);
      }
    }
  }

  lemma AllHeldAreDone(w: World, active: set<ScriptId>, held: set<ScriptId>, groups: Groups)
    requires Grouped(w, active, held, groups)
    ensures GroupsDone(groups, groups.Keys) == held
  {
    forall id | id in held ensures id in GroupsDone(groups, groups.Keys) {
      var url := FindCandidate(w, id, active).value.url;
      var k :| 0 <= k < |groups[url]| && groups[url][k].id == id;
    }
    forall id | id in GroupsDone(groups, groups.Keys) ensures id in held {
      var url, k :| url in groups && 0 <= k < |groups[url]| && groups[url][k].id == id;
      assert Fits(w, active, held, url, groups[url][k]);
    }
  }

  /** Some script in the list can be checked against this repository. */
  ghost predicate NeedsFetch(w: World, active: set<ScriptId>, ids: seq<ScriptId>, url: Url) {
    exists id :: id in ids && FindCandidate(w, id, active).Ok? && FindCandidate(w, id, active).value.url == url
  }

  lemma GroupsAreNeeded(w: World, active: set<ScriptId>, held: set<ScriptId>, groups: Groups, ids: seq<ScriptId>)
    requires Grouped(w, active, held, groups)
    requires forall id :: id in held <==> id in ids && FindCandidate(w, id, active).Ok?
    ensures forall url :: url in groups <==> NeedsFetch(w, active, ids, url)
  {
    forall url ensures url in groups <==> NeedsFetch(w, active, ids, url) {
      if url in groups {
        assert Fits(w, active, held, url, groups[url][0]);
      }
    }
  }

  // ---- many agree with one by one --------------------------------------------------

  /** Checking many with one fetch per repository leaves the states and verdicts that checking them one
      after another leaves. */
  lemma BatchRefinesSingles(w: World, ids: seq<ScriptId>, active: set<ScriptId>, before: States, after: States,
                            results: map<ScriptId, Verdict>)
    requires NoDuplicates(ids)
    requires forall id :: id in results <==> id in ids
    requires forall id | id in ids :: CheckedAlone(w, active, id, before, after, results[id])
    requires forall id: ScriptId | id !in ids :: Same(after, before, id)
    ensures CheckInTurn(w, ids, active, before) == (after, results)
  {
    InTurnIsAlone(w, ids, active, before);
    var (inTurn, verdicts) := CheckInTurn(w, ids, active, before);
    hide CheckOne, CheckInTurn;
    forall id: ScriptId ensures Same(after, inTurn, id) {
      if id in ids {
        assert CheckedAlone(w, active, id, before, inTurn, verdicts[id]);
      }
    }
    SameEverywhere(after, inTurn);
    assert results == verdicts;
  }

  lemma SameEverywhere(a: States, b: States)
    requires forall id: ScriptId :: Same(a, b, id)
    ensures a == b
  {
    forall id | id in a ensures id in b && a[id] == b[id] {
      assert Same(a, b, id);
    }
    forall id | id in b ensures id in a {
      assert Same(a, b, id);
    }
  }
}
