/** The secret vault: where keys and encrypted secrets are, and every step that moves them. */
module SecretVaultModel {
  import opened Wrappers

  type Key = nat
  type SecretId = (string, string)

  datatype Mode = OperatingSystem | Password

  datatype Status = Initializing | Available | Locked | Unavailable

  /** A password key file: its wrapped key opens with its password, unless the file is damaged. */
  datatype KeyFile = KeyFile(key: Key, password: string) | Damaged

  /** `keyring` is the operating system's entry and `keyFile` the file whose presence selects password
      mode. A stored secret is the key it is encrypted under. The rest is in memory only. */
  datatype Vault = Vault(
    keyring: Option<Key>,
    keyFile: Option<KeyFile>,
    pendingFile: Option<KeyFile>,
    stored: map<SecretId, Key>,
    cipher: Option<Key>,
    attempt: bool,
    mode: Mode,
    status: Status)

  function DiskMode(v: Vault): Mode {
    if v.keyFile.Some? then Password else OperatingSystem
  }

  /** The key that the mode on disk leads to. */
  function Selected(v: Vault): Option<Key> {
    match v.keyFile
    case None => v.keyring
    case Some(KeyFile(key, _)) => Some(key)
    case Some(Damaged) => None
  }

  // ---- passwords -------------------------------------------------------------------

  const PASSWORD_MIN_CHARACTERS := 8
  const PASSWORD_MAX_BYTES := 1024

  function Utf8Length(text: string): nat {
    if text == [] then 0
    else (if text[0] < 0x80 as char then 1 else if text[0] < 0x800 as char then 2
          else if text[0] as int < 0x10000 then 3 else 4) + Utf8Length(text[1..])
  }

  predicate ValidPassword(password: string) {
    PASSWORD_MIN_CHARACTERS <= |password| && Utf8Length(password) <= PASSWORD_MAX_BYTES && '\0' !in password
  }

  // ---- what is under way -----------------------------------------------------------

  /** How far a switch is. A switch that failed first discards its pending file if it has one. */
  datatype Stage =
    | Begun(given: Option<string>)
    | Discarding(password: string)
    | Writing(password: string)
    | Deleted
    | Keyed(key: Key)
    | Cleared(key: Key)
    | Flipped(key: Key)
    | Installed
    | Failing(discard: bool)

  /** `Reading` to `Settling` is the worker that opens the operating system's vault. */
  datatype Job =
    | Idle
    | Reading
    | Storing(key: Key)
    | Installing(key: Key)
    | Settling(ok: bool)
    | Switching(target: Mode, stage: Stage)

  datatype System = System(vault: Vault, job: Job)

  /** How an outside action goes: it works, it fails and has done nothing, or it fails after its effect. */
  datatype Fault = Works | FailsBefore | FailsAfter

  function Fail(s: System, vault: Vault, discard: bool): System
    requires s.job.Switching?
  {
    System(vault, Switching(s.job.target, Failing(discard)))
  }

  function Go(s: System, vault: Vault, stage: Stage): System
    requires s.job.Switching?
  {
    System(vault, Switching(s.job.target, stage))
  }

  /** The next action of a switch to password storage. */
  function ProceedToPassword(s: System, fault: Fault, key: Key): System
    requires s.job.Switching?
  {
    var v := s.vault;
    match s.job.stage
    case Begun(password) =>
      if password.None? || !ValidPassword(password.value) || !fault.Works? then Fail(s, v, false)
      else Go(s, v, Discarding(password.value))
    case Discarding(password) => Go(s, if fault.Works? then v.(pendingFile := None) else v, Writing(password))
    case Writing(password) =>
      if v.pendingFile.Some? || fault.FailsBefore? then Fail(s, v, false)
      else if fault.FailsAfter? then Fail(s, v.(pendingFile := Some(Damaged)), false)
      else Go(s, v.(pendingFile := Some(KeyFile(key, password))), Keyed(key))
    case Keyed(own) =>
      if fault.FailsBefore? then Fail(s, v, true)
      else if fault.FailsAfter? then Fail(s, v.(stored := map[]), true)
      else Go(s, v.(stored := map[]), Cleared(own))
    case Cleared(own) =>
      if fault.Works? then Go(s, v.(keyFile := v.pendingFile, pendingFile := None), Flipped(own))
      else Fail(s, v, true)
    case _ => ProceedCommon(s, fault)
  }

  /** The next action of a switch to the operating system's vault. */
  function ProceedToSystem(s: System, fault: Fault, key: Key): System
    requires s.job.Switching?
  {
    var v := s.vault;
    match s.job.stage
    case Begun(_) =>
      if fault.Works? then Go(s, v.(keyring := None), Deleted)
      else Fail(s, if fault.FailsAfter? then v.(keyring := None) else v, false)
    case Deleted =>
      if fault.Works? then Go(s, v.(keyring := Some(key)), Keyed(key))
      else Fail(s, if fault.FailsAfter? then v.(keyring := Some(key)) else v, false)
    case Keyed(own) =>
      if fault.FailsBefore? then Fail(s, v, false)
      else if fault.FailsAfter? then Fail(s, v.(stored := map[]), false)
      else Go(s, v.(stored := map[]), Cleared(own))
    case Cleared(own) =>
      if fault.Works? then Go(s, v.(keyFile := None), Flipped(own)) else Fail(s, v, false)
    case _ => ProceedCommon(s, fault)
  }

  /** Installing the cipher, finishing, and giving up: the same both ways. */
  function ProceedCommon(s: System, fault: Fault): System
    requires s.job.Switching?
  {
    var v := s.vault;
    match s.job.stage
    case Flipped(own) => Go(s, v.(cipher := Some(own)), Installed)
    case Installed => System(v.(attempt := false, mode := s.job.target, status := Available), Idle)
    case Failing(discard) =>
      if discard then Go(s, if fault.Works? then v.(pendingFile := None) else v, Failing(false))
      else System(v.(attempt := false), Idle)
    case _ => s
  }

  function Proceed(s: System, fault: Fault, key: Key): System
    requires s.job.Switching?
  {
    if s.job.target.Password? then ProceedToPassword(s, fault, key) else ProceedToSystem(s, fault, key)
  }

  /** The worker's next action. */
  function Work(s: System, fault: Fault, key: Key): System {
    var v := s.vault;
    match s.job
    case Reading =>
      if !fault.Works? then System(v, Settling(false))
      else if v.keyring.Some? then System(v, Installing(v.keyring.value))
      else System(v, Storing(key))
    case Storing(own) =>
      if fault.Works? then System(v.(keyring := Some(own)), Installing(own))
      else System(if fault.FailsAfter? then v.(keyring := Some(own)) else v, Settling(false))
    case Installing(own) => System(v.(cipher := Some(own)), Settling(true))
    case Settling(ok) =>
      System(v.(attempt := false, mode := OperatingSystem, status := if ok then Available else Unavailable), Idle)
    case _ => s
  }

  // ---- everything that can happen --------------------------------------------------

  datatype Step =
    | Start
    | WorkStep(fault: Fault, key: Key)
    | BeginSwitch(target: Mode, given: Option<string>)
    | ProceedStep(fault: Fault, key: Key)
    | Unlock(password: string)
    | Lock
    | Put(id: SecretId)
    | Delete(id: SecretId)
    | Crash

  /** Every command but `Start` holds the operation lock, which a switch holds until it ends. */
  predicate Enabled(s: System, step: Step) {
    match step
    case WorkStep(_, _) => s.job.Reading? || s.job.Storing? || s.job.Installing? || s.job.Settling?
    case ProceedStep(_, _) => s.job.Switching?
    case Crash => true
    case _ => !s.job.Switching?
  }

  function Starting(s: System): System {
    var v := s.vault;
    if v.mode.Password? then System(v.(cipher := None, attempt := false, status := Locked), s.job)
    else if v.attempt || v.status.Available? then s
    else System(v.(attempt := true, status := Initializing), Reading)
  }

  function Beginning(s: System, target: Mode, password: Option<string>): System {
    if s.vault.attempt || s.vault.mode == target then s
    else System(s.vault.(attempt := true), Switching(target, Begun(password)))
  }

  function Unlocking(v: Vault, password: string): Vault {
    if v.mode.Password? && ValidPassword(password) && v.keyFile.Some? && v.keyFile.value.KeyFile?
       && v.keyFile.value.password == password
    then v.(cipher := Some(v.keyFile.value.key), attempt := false, status := Available)
    else v
  }

  function Locking(v: Vault): Vault {
    if v.mode.Password? then v.(cipher := None, attempt := false, status := Locked) else v
  }

  /** What the next start of the program finds. */
  function Restarted(v: Vault): Vault {
    var mode := DiskMode(v);
    v.(cipher := None, attempt := false, mode := mode, status := if mode.Password? then Locked else Initializing)
  }

  function Apply(s: System, step: Step): System
    requires Enabled(s, step)
  {
    var v := s.vault;
    match step
    case Start => Starting(s)
    case WorkStep(fault, key) => Work(s, fault, key)
    case BeginSwitch(target, password) => Beginning(s, target, password)
    case ProceedStep(fault, key) => Proceed(s, fault, key)
    case Unlock(password) => System(Unlocking(v, password), s.job)
    case Lock => System(Locking(v), s.job)
    case Put(id) => if v.cipher.Some? then System(v.(stored := v.stored[id := v.cipher.value]), s.job) else s
    case Delete(id) => System(v.(stored := v.stored - {id}), s.job)
    case Crash => System(Restarted(v), Idle)
  }

  ghost predicate IsRun(states: seq<System>, steps: seq<Step>) {
    && |states| == |steps| + 1
    && forall i :: 0 <= i < |steps| ==> Enabled(states[i], steps[i]) && states[i + 1] == Apply(states[i], steps[i])
  }
}
