/** Stored secrets stay readable through every switch, failure and crash. */
module SecretVaultProofs {
  import opened Wrappers
  import opened SecretVaultModel

  // ---- the invariant ---------------------------------------------------------------

  /** Every stored secret is encrypted under the key that the mode on disk leads to. */
  ghost predicate Readable(v: Vault) {
    forall id | id in v.stored :: Selected(v) == Some(v.stored[id])
  }

  /** The cipher in memory, if there is one, is for that key. */
  predicate CipherMatches(v: Vault) {
    v.cipher.Some? ==> v.cipher == Selected(v)
  }

  predicate NotYetFlipped(v: Vault, target: Mode) {
    v.attempt && v.mode == DiskMode(v) != target && CipherMatches(v)
  }

  /** The key file holds this key and can be opened: its password passes. */
  predicate Holds(file: Option<KeyFile>, key: Key) {
    file.Some? && file.value.KeyFile? && file.value.key == key && ValidPassword(file.value.password)
  }

  /** The new key is where the flip will make the disk lead. */
  predicate KeyReady(v: Vault, target: Mode, key: Key) {
    if target.Password? then Holds(v.pendingFile, key) else v.keyring == Some(key)
  }

  /** And there it is now. */
  predicate KeyInPlace(v: Vault, target: Mode, key: Key) {
    DiskMode(v) == target && Selected(v) == Some(key) && (target.Password? ==> Holds(v.keyFile, key))
  }

  predicate SwitchFits(v: Vault, target: Mode, stage: Stage) {
    match stage
    case Begun(_) => NotYetFlipped(v, target)
    case Discarding(password) => NotYetFlipped(v, target) && target.Password? && ValidPassword(password)
    case Writing(password) => NotYetFlipped(v, target) && target.Password? && ValidPassword(password)
    case Deleted => NotYetFlipped(v, target) && target.OperatingSystem?
    case Keyed(key) => NotYetFlipped(v, target) && KeyReady(v, target, key)
    case Cleared(key) => NotYetFlipped(v, target) && KeyReady(v, target, key) && v.stored == map[]
    case Flipped(key) => KeyInPlace(v, target, key) && v.stored == map[]
    case Installed => v.cipher.Some? && KeyInPlace(v, target, v.cipher.value) && v.stored == map[]
    case Failing(_) => NotYetFlipped(v, target)
  }

  ghost predicate JobFits(s: System) {
    var v := s.vault;
    match s.job
    case Idle => v.mode == DiskMode(v) && CipherMatches(v)
    case Switching(target, stage) => SwitchFits(v, target, stage)
    case _ =>
      && v.attempt && v.mode == DiskMode(v) == OperatingSystem && CipherMatches(v)
      && (s.job.Storing? ==> v.keyring.None?)
      && (s.job.Installing? ==> v.keyring == Some(s.job.key))
  }

  ghost predicate Inv(s: System) {
    Readable(s.vault) && JobFits(s)
  }

  // ---- every step keeps it ---------------------------------------------------------

  lemma ProceedToPasswordKeepsReadable(s: System, fault: Fault, key: Key)
    requires Inv(s) && s.job.Switching? && s.job.target.Password?
    ensures Readable(ProceedToPassword(s, fault, key).vault)
  {
    hide ValidPassword;
  }

  lemma ProceedToPasswordKeepsJob(s: System, fault: Fault, key: Key)
    requires Inv(s) && s.job.Switching? && s.job.target.Password?
    ensures JobFits(ProceedToPassword(s, fault, key))
  {
    hide Readable, ValidPassword;
  }

  lemma ProceedToSystemKeepsReadable(s: System, fault: Fault, key: Key)
    requires Inv(s) && s.job.Switching? && s.job.target.OperatingSystem?
    ensures Readable(ProceedToSystem(s, fault, key).vault)
  {
  }

  lemma ProceedToSystemKeepsJob(s: System, fault: Fault, key: Key)
    requires Inv(s) && s.job.Switching? && s.job.target.OperatingSystem?
    ensures JobFits(ProceedToSystem(s, fault, key))
  {
    hide Readable;
  }

  lemma ProceedKeepsInv(s: System, fault: Fault, key: Key)
    requires Inv(s) && s.job.Switching?
    ensures Inv(Proceed(s, fault, key))
  {
    hide Readable, JobFits, ProceedToPassword, ProceedToSystem;
    if s.job.target.Password? {
      ProceedToPasswordKeepsReadable(s, fault, key);
      ProceedToPasswordKeepsJob(s, fault, key);
    } else {
      ProceedToSystemKeepsReadable(s, fault, key);
      ProceedToSystemKeepsJob(s, fault, key);
    }
  }

  lemma WorkKeepsInv(s: System, fault: Fault, key: Key)
    requires Inv(s) && Enabled(s, WorkStep(fault, key))
    ensures Inv(Work(s, fault, key))
  {
  }

  lemma NextKeepsInv(s: System, step: Step)
    requires Inv(s) && Enabled(s, step)
    ensures Inv(Apply(s, step))
  {
    match step
    case ProceedStep(fault, key) => ProceedKeepsInv(s, fault, key);
    case WorkStep(fault, key) => WorkKeepsInv(s, fault, key);
    case _ =>
  }

  lemma {:induction false} RunKeepsInv(states: seq<System>, steps: seq<Step>, i: nat)
    requires IsRun(states, steps) && Inv(states[0]) && i < |states|
    ensures Inv(states[i])
  {
    if i > 0 {
      RunKeepsInv(states, steps, i - 1);
      hide Inv;
      assert Enabled(states[i - 1], steps[i - 1]);
      NextKeepsInv(states[i - 1], steps[i - 1]);
    }
  }

  // ---- where runs begin ------------------------------------------------------------

  /** A restart keeps the invariant exactly when what is on disk is readable. */
  lemma RestartFitsIff(v: Vault)
    ensures Inv(System(Restarted(v), Idle)) <==> Readable(v)
  {
    assert Restarted(v).stored == v.stored && Selected(Restarted(v)) == Selected(v);
  }

  /** Whatever is left over elsewhere, an installation without stored secrets begins readable, and so does
      every run of the program over secrets that were readable: all that happens in it keeps them so. */
  lemma RunFromStartIsReadable(v: Vault, states: seq<System>, steps: seq<Step>, i: nat)
    requires v.stored == map[] || Readable(v)
    requires IsRun(states, steps) && states[0] == System(Restarted(v), Idle) && i < |states|
    ensures Inv(states[i]) && Readable(states[i].vault)
  {
    assert Readable(v);
    RestartFitsIff(v);
    RunKeepsInv(states, steps, i);
  }

  // ---- the key file can be opened --------------------------------------------------

  /** Somebody who knows the key file's password gets in with it. */
  predicate Openable(v: Vault) {
    v.keyFile.Some? && v.keyFile.value.KeyFile? ==> ValidPassword(v.keyFile.value.password)
  }

  lemma ProceedKeepsOpenable(s: System, fault: Fault, key: Key)
    requires JobFits(s) && Openable(s.vault) && s.job.Switching?
    ensures Openable(Proceed(s, fault, key).vault)
  {
    hide ValidPassword;
  }

  lemma NextKeepsOpenable(s: System, step: Step)
    requires Inv(s) && Openable(s.vault) && Enabled(s, step)
    ensures Openable(Apply(s, step).vault)
  {
    hide ValidPassword, Proceed, Readable;
    if step.ProceedStep? {
      ProceedKeepsOpenable(s, step.fault, step.key);
    }
  }

  /** Whatever happens from a start over a key file that can be opened, or none, the key file can be opened,
      and after a crash its password opens the vault. */
  lemma {:induction false} KeyFileStaysOpenable(v: Vault, states: seq<System>, steps: seq<Step>, i: nat)
    requires (v.stored == map[] || Readable(v)) && Openable(v)
    requires IsRun(states, steps) && states[0] == System(Restarted(v), Idle) && i < |states|
    ensures Openable(states[i].vault)
    ensures var crashed := Apply(states[i], Crash).vault;
            crashed.keyFile.Some? && crashed.keyFile.value.KeyFile? ==>
              Unlocking(crashed, crashed.keyFile.value.password).cipher == Some(crashed.keyFile.value.key)
  {
    hide ValidPassword, Inv;
    if i > 0 {
      KeyFileStaysOpenable(v, states, steps, i - 1);
      RunFromStartIsReadable(v, states, steps, i - 1);
      assert Enabled(states[i - 1], steps[i - 1]);
      NextKeepsOpenable(states[i - 1], steps[i - 1]);
    }
  }

  lemma {:induction false} Utf8Bounds(text: string)
    ensures |text| <= Utf8Length(text) <= 4 * |text|
  {
    if text != [] {
      Utf8Bounds(text[1..]);
    }
  }

  /** The first code point that takes more than `n` bytes, by the table in section 3 of RFC 3629. */
  function Utf8Reach(n: nat): nat {
    match n case 0 => 0 case 1 => 0x80 case 2 => 0x800 case 3 => 0x1_0000 case _ => 0x11_0000
  }

  /** Each character counts the least number of bytes that reaches its code point. */
  lemma {:induction false} Utf8Counts(text: string, rest: string)
    ensures Utf8Length(text + rest) == Utf8Length(text) + Utf8Length(rest)
    ensures |text| == 1 ==>
              && 1 <= Utf8Length(text) <= 4
              && Utf8Reach(Utf8Length(text) - 1) <= text[0] as int < Utf8Reach(Utf8Length(text))
  {
    if text == [] {
      assert text + rest == rest;
    } else {
      Utf8Counts(text[1..], rest);
      assert (text + rest)[1..] == text[1..] + rest;
    }
  }

  /** Too few characters, too many bytes or a NUL refuse a password; in between it passes whatever its
      characters are. */
  lemma PasswordBounds(password: string)
    ensures |password| < 8 || |password| > 1024 || '\0' in password ==> !ValidPassword(password)
    ensures 8 <= |password| <= 256 && '\0' !in password ==> ValidPassword(password)
  {
    Utf8Bounds(password);
  }

  // ---- opening the operating system's vault ----------------------------------------

  /** Starting over the operating system's vault: the worker takes the keyring's key, or stores a new one
      when there is none, and the vault is open exactly when that works. */
  lemma StartOpensIff(v: Vault, read: Fault, store: Fault, key: Key)
    requires v.mode.OperatingSystem? && !v.attempt && !v.status.Available?
    ensures var begun := Apply(System(v, Idle), Start);
            var fetched := Work(begun, read, key);
            var done := Work(Work(Work(fetched, store, key), Works, key), Works, key);
            && begun == System(v.(attempt := true, status := Initializing), Reading)
            && done.job == Idle && !done.vault.attempt
            && (done.vault.status.Available? <==> read.Works? && (v.keyring.Some? || store.Works?))
            && (done.vault.status.Available? ==>
                  done.vault.cipher == done.vault.keyring == if v.keyring.Some? then v.keyring else Some(key))
            && (!done.vault.status.Available? ==>
                  && done.vault.status.Unavailable? && done.vault.cipher == v.cipher
                  && done.vault.keyring == if read.Works? && store.FailsAfter? then Some(key) else v.keyring)
            && done.vault == v.(keyring := done.vault.keyring, cipher := done.vault.cipher, status := done.vault.status)
  {
  }

  /** Starting over a key file locks the vault, and a vault that is open or being opened stays as it is. */
  lemma StartElsewhere(s: System)
    requires Enabled(s, Start) && (s.vault.mode.Password? || s.vault.attempt || s.vault.status.Available?)
    ensures var after := Apply(s, Start);
            if s.vault.mode.Password? then
              && after.vault == Locking(s.vault) && after.vault.status.Locked?
              && after.vault.cipher.None? && !after.vault.attempt
            else after == s
  {
  }

  /** Whatever is under way can go on, and whatever can go on is under way. */
  lemma WorkGoesOn(s: System, fault: Fault, key: Key)
    ensures !s.job.Idle? <==> Enabled(s, WorkStep(fault, key)) || Enabled(s, ProceedStep(fault, key))
    ensures Enabled(s, ProceedStep(fault, key)) <==> forall id :: !Enabled(s, Put(id))
  {
    assert Enabled(s, Put(("", ""))) <==> !s.job.Switching?;
  }

  /** A secret put into an open vault can be read there, beside all others as they were, and deleting it
      takes away that one alone; a locked vault takes none. */
  lemma PutThenDelete(s: System, id: SecretId)
    requires Inv(s) && !s.job.Switching?
    ensures var put := Apply(s, Put(id)); var gone := Apply(put, Delete(id));
            && (s.vault.cipher.None? ==> put == s)
            && (s.vault.cipher.Some? ==>
                  && put.vault.stored.Keys == s.vault.stored.Keys + {id} && Opens(put.vault, put.vault.stored)
                  && put == System(s.vault.(stored := put.vault.stored), s.job))
            && gone.vault.stored.Keys == s.vault.stored.Keys - {id}
            && (forall other | other in s.vault.stored && other != id ::
                  gone.vault.stored[other] == put.vault.stored[other] == s.vault.stored[other])
            && gone == System(s.vault.(stored := gone.vault.stored), s.job)
  {
  }

  // ---- what follows for every run --------------------------------------------------

  /** Between any two actions of anything, whatever failed before: every stored secret is encrypted
      under the key the mode on disk leads to, and the cipher in memory decrypts every stored secret. */
  lemma SecretsStayReadable(states: seq<System>, steps: seq<Step>, i: nat)
    requires IsRun(states, steps) && Inv(states[0]) && i < |states|
    ensures var v := states[i].vault;
            && Readable(v)
            && (v.cipher.Some? ==> forall id | id in v.stored :: v.stored[id] == v.cipher.value)
  {
    RunKeepsInv(states, steps, i);
  }

  /** Outside a switch the shown mode is the one on disk and the cipher is for its key. */
  lemma SettledStateMatchesDisk(states: seq<System>, steps: seq<Step>, i: nat)
    requires IsRun(states, steps) && Inv(states[0]) && i < |states| && !states[i].job.Switching?
    ensures states[i].vault.mode == DiskMode(states[i].vault) && CipherMatches(states[i].vault)
  {
    RunKeepsInv(states, steps, i);
  }

  /** A crash at any point, then the right password or an answering keyring: every secret that was
      stored is readable again. */
  lemma CrashThenReopen(states: seq<System>, steps: seq<Step>, i: nat, key: Key)
    requires IsRun(states, steps) && Inv(states[0]) && i < |states|
    ensures var crashed := Apply(states[i], Crash); var v := crashed.vault;
            && v.stored == states[i].vault.stored
            && (v.keyFile.Some? && v.keyFile.value.KeyFile? && ValidPassword(v.keyFile.value.password) ==>
                  var unlocked := Apply(crashed, Unlock(v.keyFile.value.password)).vault;
                  unlocked.status.Available? && Opens(unlocked, v.stored))
            && (v.keyFile.None? && v.keyring.Some? ==>
                  var read := Apply(Apply(crashed, Start), WorkStep(Works, key));
                  var unlocked := Work(Work(read, Works, key), Works, key).vault;
                  unlocked.status.Available? && Opens(unlocked, v.stored))
  {
    RunKeepsInv(states, steps, i);
  }

  ghost predicate Opens(v: Vault, stored: map<SecretId, Key>) {
    v.stored == stored && v.cipher.Some? && forall id | id in stored :: stored[id] == v.cipher.value
  }

  // ---- one switch from begin to end ------------------------------------------------

  /** The file holds this key under the password given. */
  predicate HoldsGiven(file: Option<KeyFile>, key: Key, given: Option<string>) {
    given.Some? && ValidPassword(given.value) && file == Some(KeyFile(key, given.value))
  }

  /** Where a switch that began at `v0` with this password can be. */
  ghost predicate Since(v0: Vault, given: Option<string>, s: System) {
    var v := s.vault;
    match s.job
    case Switching(target, stage) =>
      if stage.Flipped? || stage.Installed? then
        && v.stored == map[]
        && (target.Password? ==>
              v.pendingFile.None? && Selected(v).Some? && HoldsGiven(v.keyFile, Selected(v).value, given))
      else
        && Untouched(v0, v) && (stage.Failing? || stage.Cleared? || v.stored == v0.stored)
        && PasswordKept(given, v, target, stage)
    case Idle => SwitchedTo(v0, given, v) || (Untouched(v0, v) && !v.attempt)
    case _ => false
  }

  predicate PasswordKept(given: Option<string>, v: Vault, target: Mode, stage: Stage) {
    match stage
    case Begun(password) => password == given
    case Discarding(password) => given == Some(password)
    case Writing(password) => given == Some(password)
    case Keyed(key) => target.Password? ==> HoldsGiven(v.pendingFile, key, given)
    case Cleared(key) => target.Password? ==> HoldsGiven(v.pendingFile, key, given)
    case _ => true
  }

  /** What a failed switch leaves alone: the mode on disk, its key file, the cipher and what is shown.
      The secrets are all there or all gone. */
  ghost predicate Untouched(v0: Vault, v: Vault) {
    && v.keyFile == v0.keyFile && v.cipher == v0.cipher && v.mode == v0.mode && v.status == v0.status
    && (v.stored == v0.stored || v.stored == map[])
    && (v0.mode.OperatingSystem? ==> v.keyring == v0.keyring)
  }

  /** What a switch that worked leaves: the other mode, its key on disk, under the password given, and in
      memory, and no old secret. */
  ghost predicate SwitchedTo(v0: Vault, given: Option<string>, v: Vault) {
    && v.mode == DiskMode(v) != v0.mode && v.status.Available? && !v.attempt
    && v.cipher.Some? && v.cipher == Selected(v) && v.stored == map[]
    && (v.mode.Password? ==> v.pendingFile.None? && HoldsGiven(v.keyFile, v.cipher.value, given))
  }

  /** After a switch to password storage, locking and the password given open the same vault again. */
  lemma SwitchedReopens(v0: Vault, given: Option<string>, v: Vault)
    requires SwitchedTo(v0, given, v) && v.mode.Password?
    ensures given.Some? && Locking(v).cipher.None? && Unlocking(Locking(v), given.value) == v
  {
    hide ValidPassword;
  }

  lemma ProceedCommonKeepsSince(v0: Vault, given: Option<string>, s: System, fault: Fault)
    requires JobFits(s) && s.job.Switching? && Since(v0, given, s) && v0.mode == DiskMode(v0) != s.job.target
    requires s.job.stage.Failing? || s.job.stage.Flipped? || s.job.stage.Installed?
    ensures var after := ProceedCommon(s, fault);
            Since(v0, given, after) && (after.job.Switching? ==> after.job.target == s.job.target)
  {
    hide ValidPassword;
  }

  lemma ProceedToPasswordKeepsSince(v0: Vault, given: Option<string>, s: System, fault: Fault, key: Key)
    requires JobFits(s) && s.job.Switching? && s.job.target.Password? && Since(v0, given, s)
         && v0.mode == DiskMode(v0) != Password
    ensures var after := ProceedToPassword(s, fault, key);
            Since(v0, given, after) && (after.job.Switching? ==> after.job.target == s.job.target)
  {
    hide ValidPassword, ProceedCommon;
    if s.job.stage.Failing? || s.job.stage.Flipped? || s.job.stage.Installed? {
      ProceedCommonKeepsSince(v0, given, s, fault);
    }
  }

  lemma ProceedToSystemKeepsSince(v0: Vault, given: Option<string>, s: System, fault: Fault, key: Key)
    requires JobFits(s) && s.job.Switching? && s.job.target.OperatingSystem? && Since(v0, given, s)
    requires v0.mode == DiskMode(v0) != OperatingSystem
    ensures var after := ProceedToSystem(s, fault, key);
            Since(v0, given, after) && (after.job.Switching? ==> after.job.target == s.job.target)
  {
    hide ValidPassword, ProceedCommon;
    if s.job.stage.Failing? || s.job.stage.Flipped? || s.job.stage.Installed? {
      ProceedCommonKeepsSince(v0, given, s, fault);
    }
  }

  lemma ProceedKeepsSince(v0: Vault, given: Option<string>, s: System, fault: Fault, key: Key)
    requires Inv(s) && s.job.Switching? && Since(v0, given, s) && v0.mode == DiskMode(v0) != s.job.target
    ensures var after := Proceed(s, fault, key);
            Since(v0, given, after) && (after.job.Switching? ==> after.job.target == s.job.target)
  {
    hide Readable, JobFits, Since, ProceedToPassword, ProceedToSystem;
    if s.job.target.Password? {
      ProceedToPasswordKeepsSince(v0, given, s, fault, key);
    } else {
      ProceedToSystemKeepsSince(v0, given, s, fault, key);
    }
  }

  /** How far a switch still has to go. */
  function Remaining(job: Job): nat {
    if !job.Switching? then 0 else
    match job.stage
    case Begun(_) => 9
    case Discarding(_) => 8
    case Writing(_) => 7
    case Deleted => 7
    case Keyed(_) => 6
    case Cleared(_) => 5
    case Failing(discard) => if discard then 4 else 3
    case Flipped(_) => 2
    case Installed => 1
  }

  lemma ProceedAdvances(s: System, fault: Fault, key: Key)
    requires Inv(s) && s.job.Switching?
    ensures Remaining(Proceed(s, fault, key).job) < Remaining(s.job)
  {
  }

  ghost predicate OneAction(before: System, after: System) {
    before.job.Switching? && exists fault, key :: after == Proceed(before, fault, key)
  }

  /** The states of a switch, one action apart. */
  ghost predicate Proceeds(states: seq<System>) {
    forall i :: 0 <= i < |states| - 1 ==> OneAction(states[i], states[i + 1])
  }

  /** Every state of a switch keeps the invariant; the switch ends within nine actions, and then it has
      either switched everything or left the selected key, the cipher and the shown mode as they were. */
  lemma {:induction false} SwitchEndsEitherWay(v0: Vault, given: Option<string>, states: seq<System>, i: nat)
    requires Proceeds(states) && i < |states|
    requires Inv(states[0]) && states[0].job.Switching? && states[0].job.stage == Begun(given)
    requires states[0].vault == v0.(attempt := true)
    ensures Inv(states[i]) && Since(v0, given, states[i])
    ensures states[i].job.Switching?
         ==> Remaining(states[i].job) + i <= 9 && states[i].job.target == states[0].job.target
    ensures i <= 9 && (i == 9 ==> states[i].job.Idle?)
    ensures states[i].job.Idle? ==> SwitchedTo(v0, given, states[i].vault) || Untouched(v0, states[i].vault)
  {
    if i > 0 {
      SwitchEndsEitherWay(v0, given, states, i - 1);
      assert OneAction(states[i - 1], states[i]);
      var fault, key :| states[i] == Proceed(states[i - 1], fault, key);
      hide Inv, Proceed, SwitchedTo, Untouched;
      ProceedKeepsInv(states[i - 1], fault, key);
      ProceedKeepsSince(v0, given, states[i - 1], fault, key);
      ProceedAdvances(states[i - 1], fault, key);
    }
  }

  lemma OneStateProceeds(s: System)
    ensures Proceeds([s])
  {
  }

  lemma BegunFits(v: Vault, target: Mode, given: Option<string>)
    requires Inv(System(v, Idle)) && v.mode != target
    ensures Inv(System(v.(attempt := true), Switching(target, Begun(given))))
  {
  }

  /** The trace of a whole switch. */
  lemma WholeSwitch(v0: Vault, given: Option<string>, states: seq<System>)
    requires Proceeds(states) && states != []
    requires Inv(states[0]) && states[0].job.Switching? && states[0].job.stage == Begun(given)
    requires states[0].vault == v0.(attempt := true) && states[|states| - 1].job.Idle?
    ensures forall s | s in states :: Inv(s)
    ensures var v := states[|states| - 1].vault;
            && (SwitchedTo(v0, given, v) || Untouched(v0, v))
            && (SwitchedTo(v0, given, v) <==> v.mode != v0.mode)
  {
    hide Inv, Proceeds, Since;
    forall i: nat | i < |states| ensures Inv(states[i]) {
      SwitchEndsEitherWay(v0, given, states, i);
    }
    SwitchEndsEitherWay(v0, given, states, |states| - 1);
  }

  // ---- why writes must wait for the switch -----------------------------------------

  /** Had a secret been written between the clearing and the flip, it would be readable afterwards
      exactly when there was no cipher to write it with, or the old cipher had the new key. */
  lemma WriteInsideSwitchIsReadableIff(s: System, id: SecretId, key: Key)
    requires Inv(s) && s.job.Switching? && s.job.stage.Cleared?
    ensures var v := s.vault;
            var wrote := if v.cipher.Some? then v.(stored := v.stored[id := v.cipher.value]) else v;
            (Readable(Proceed(System(wrote, s.job), Works, key).vault))
            <==> (s.vault.cipher.None? || s.vault.cipher.value == s.job.stage.key)
  {
    if s.vault.cipher.Some? {
      var wrote := s.vault.(stored := s.vault.stored[id := s.vault.cipher.value]);
      assert id in Proceed(System(wrote, s.job), Works, key).vault.stored;
    }
  }
}
