/** The controller object: its commands as methods, each outside action answered by an oracle. */
module SecretVault {
  import opened Wrappers
  import opened SecretVaultModel
  import opened SecretVaultProofs

  /** The outside actions of one switch. */
  datatype Action = Prepare | Discard | Write | DeleteEntry | SetEntry | Clear | Rename | Remove

  type World = Action -> Fault

  datatype VaultError = AlreadyActive | Busy | PasswordNeeded | NotPassword | WrongPassword | Outside(action: Action)

  /** The password passes and the new key reaches its place. */
  predicate KeyCanBeMade(target: Mode, password: Option<string>, world: World, left: Option<KeyFile>) {
    if target.Password? then
      && password.Some? && ValidPassword(password.value)
      && world(Prepare).Works? && (world(Discard).Works? || left.None?) && world(Write).Works?
    else world(DeleteEntry).Works? && world(SetEntry).Works?
  }

  /** The secrets can be cleared and the mode on disk flipped. */
  predicate CanComplete(target: Mode, world: World) {
    world(Clear).Works? && world(if target.Password? then Rename else Remove).Works?
  }

  class SecretVaultController {
    var keyring: Option<Key>
    var keyFile: Option<KeyFile>
    var pendingFile: Option<KeyFile>
    var stored: map<SecretId, Key>
    var cipher: Option<Key>
    var attempt: bool
    var mode: Mode
    var status: Status
    ghost var job: Job
    ghost var trace: seq<System>

    ghost function Contents(): Vault
      reads this
    {
      Vault(keyring, keyFile, pendingFile, stored, cipher, attempt, mode, status)
    }

    ghost function Now(): System
      reads this
    {
      System(Contents(), job)
    }

    ghost predicate Switched(target: Mode, key: Key)
      reads this
    {
      mode == target && status == Available && !attempt && cipher == Some(key) && stored == map[]
    }

    /** The trace of the switch under way ends with the present state. */
    ghost predicate Tracing()
      reads this
    {
      |trace| > 0 && Proceeds(trace) && trace[|trace| - 1] == Now()
    }

    /** The program starts over what is on disk. */
    constructor (keyring: Option<Key>, keyFile: Option<KeyFile>, pendingFile: Option<KeyFile>,
                 stored: map<SecretId, Key>)
      ensures Contents() == Restarted(Vault(keyring, keyFile, pendingFile, stored, None, false, OperatingSystem,
             Locked))
      ensures mode == (if keyFile.Some? then Password else OperatingSystem) && cipher == None && !attempt
      ensures status == (if keyFile.Some? then Locked else Initializing)
      ensures job == Idle
    {
      this.keyring, this.keyFile, this.pendingFile, this.stored := keyring, keyFile, pendingFile, stored;
      cipher, attempt, job, trace := None, false, Idle, [];
      mode := if keyFile.Some? then Password else OperatingSystem;
      status := if keyFile.Some? then Locked else Initializing;
    }

    method UnlockPassword(password: string) returns (r: Result<(), VaultError>)
      modifies this`cipher, this`attempt, this`status
      ensures Contents() == Unlocking(old(Contents()), password)
      ensures r.Ok? <==> mode.Password? && ValidPassword(password) && keyFile.Some? && keyFile.value.KeyFile?
                         && keyFile.value.password == password
      ensures r.Ok? ==> cipher == Some(keyFile.value.key) && status == Available && !attempt
      ensures r.Err? ==> unchanged(this)
    {
      if !mode.Password? {
        return Err(NotPassword);
      }
      if !ValidPassword(password) || keyFile.None? || keyFile.value.Damaged? || keyFile.value.password != password {
        return Err(WrongPassword);
      }
      cipher := Some(keyFile.value.key);
      attempt, status := false, Available;
      return Ok(());
    }

    method LockPassword() returns (r: Result<(), VaultError>)
      modifies this`cipher, this`attempt, this`status
      ensures Contents() == Locking(old(Contents()))
      ensures r.Ok? <==> mode.Password?
      ensures r.Ok? ==> cipher == None && status == Locked && !attempt
      ensures r.Err? ==> unchanged(this)
    {
      if !mode.Password? {
        return Err(NotPassword);
      }
      cipher := None;
      attempt, status := false, Locked;
      return Ok(());
    }

    method BeginTransition(target: Mode) returns (r: Result<(), VaultError>)
      modifies this`attempt
      ensures r.Err? <==> old(attempt) || mode == target
      ensures attempt == (r.Ok? || old(attempt))
    {
      if attempt {
        return Err(Busy);
      }
      if mode == target {
        return Err(AlreadyActive);
      }
      attempt := true;
      return Ok(());
    }

    /** One traced action: `Now()` has to be what `Proceed` says. */
    ghost method Record(fault: Fault, key: Key)
      requires |trace| > 0 && Proceeds(trace) && trace[|trace| - 1].job.Switching?
      requires Now() == Proceed(trace[|trace| - 1], fault, key)
      modifies this`trace
      ensures Tracing() && |trace| == old(|trace|) + 1 && old(trace) <= trace
    {
      assert OneAction(trace[|trace| - 1], Now());
      hide OneAction;
      trace := trace + [Now()];
    }

    /** Checks the password and makes the directory. */
    method CheckPassword(password: Option<string>, world: World, key: Key) returns (r: Result<(), VaultError>)
      requires Tracing() && job == Switching(Password, Begun(password))
      modifies this`job, this`trace
      ensures Tracing() && old(trace) <= trace
      ensures r.Ok? <==> password.Some? && ValidPassword(password.value) && world(Prepare).Works?
      ensures r.Ok? ==> password.Some? && job == Switching(Password, Discarding(password.value))
      ensures r.Err? ==> job == Switching(Password, Failing(false))
    {
      hide Proceeds;
      if password.None? || !ValidPassword(password.value) || !world(Prepare).Works? {
        job := Switching(Password, Failing(false));
        Record(world(Prepare), key);
        return Err(if password.None? then PasswordNeeded else Outside(Prepare));
      }
      job := Switching(Password, Discarding(password.value));
      Record(world(Prepare), key);
      return Ok(());
    }

    /** Writes the new key file beside the old one, after discarding one that was left behind. */
    method WritePending(password: string, world: World, key: Key) returns (r: Result<(), VaultError>)
      requires Tracing() && job == Switching(Password, Discarding(password))
      modifies this`pendingFile, this`job, this`trace
      ensures Tracing() && old(trace) <= trace
      ensures job == Switching(Password, if r.Ok? then Keyed(key) else Failing(false))
      ensures r.Ok? <==> (world(Discard).Works? || old(pendingFile).None?) && world(Write).Works?
      ensures r.Ok? ==> pendingFile == Some(KeyFile(key, password))
      ensures r.Err? ==> pendingFile == if !world(Discard).Works? && old(pendingFile).Some? then old(pendingFile)
                                        else if world(Write).FailsBefore? then None else Some(Damaged)
    {
      hide Proceeds;
      if world(Discard).Works? {
        pendingFile := None;
      }
      job := Switching(Password, Writing(password));
      Record(world(Discard), key);
      if pendingFile.Some? || world(Write).FailsBefore? {
        job := Switching(Password, Failing(false));
        Record(world(Write), key);
        return Err(Outside(Write));
      }
      if world(Write).FailsAfter? {
        pendingFile := Some(Damaged);
        job := Switching(Password, Failing(false));
        Record(world(Write), key);
        return Err(Outside(Write));
      }
      pendingFile := Some(KeyFile(key, password));
      job := Switching(Password, Keyed(key));
      Record(world(Write), key);
      return Ok(());
    }

    /** Replaces the keyring's entry by a new key. */
    method ResetKeyring(world: World, key: Key) returns (r: Result<(), VaultError>)
      requires Tracing() && job.Switching? && job.target == OperatingSystem && job.stage.Begun?
      modifies this`keyring, this`job, this`trace
      ensures Tracing() && old(trace) <= trace
      ensures job == Switching(OperatingSystem, if r.Ok? then Keyed(key) else Failing(false))
      ensures r.Ok? <==> world(DeleteEntry).Works? && world(SetEntry).Works?
      ensures r.Ok? ==> keyring == Some(key)
      ensures r.Err? ==> keyring == if world(DeleteEntry).FailsBefore? then old(keyring)
                                    else if world(DeleteEntry).Works? && world(SetEntry).FailsAfter? then Some(key)
                                    else None
    {
      hide Proceeds;
      if !world(DeleteEntry).FailsBefore? {
        keyring := None;
      }
      if !world(DeleteEntry).Works? {
        job := Switching(OperatingSystem, Failing(false));
        Record(world(DeleteEntry), key);
        return Err(Outside(DeleteEntry));
      }
      job := Switching(OperatingSystem, Deleted);
      Record(world(DeleteEntry), key);
      if !world(SetEntry).FailsBefore? {
        keyring := Some(key);
      }
      if !world(SetEntry).Works? {
        job := Switching(OperatingSystem, Failing(false));
        Record(world(SetEntry), key);
        return Err(Outside(SetEntry));
      }
      job := Switching(OperatingSystem, Keyed(key));
      Record(world(SetEntry), key);
      return Ok(());
    }

    /** Forgets every stored secret. */
    method ClearAllStoredSecrets(world: World, target: Mode, key: Key) returns (r: Result<nat, VaultError>)
      requires Tracing() && job == Switching(target, Keyed(key))
      modifies this`stored, this`job, this`trace
      ensures Tracing() && old(trace) <= trace
      ensures job == Switching(target, if r.Ok? then Cleared(key) else Failing(target.Password?))
      ensures r.Ok? <==> world(Clear).Works?
      ensures r.Ok? ==> r.value == |old(stored)|
      ensures stored == if world(Clear).FailsBefore? then old(stored) else map[]
    {
      hide Proceeds;
      var count := |stored|;
      if !world(Clear).FailsBefore? {
        stored := map[];
      }
      if !world(Clear).Works? {
        job := Switching(target, Failing(target.Password?));
        Record(world(Clear), key);
        return Err(Outside(Clear));
      }
      job := Switching(target, Cleared(key));
      Record(world(Clear), key);
      return Ok(count);
    }

    /** Renames the pending key file into place, or removes the key file: the mode on disk flips. */
    method Flip(world: World, target: Mode, key: Key) returns (r: Result<(), VaultError>)
      requires Tracing() && job == Switching(target, Cleared(key))
      modifies this`keyFile, this`pendingFile, this`job, this`trace
      ensures Tracing() && old(trace) <= trace
      ensures job == Switching(target, if r.Ok? then Flipped(key) else Failing(target.Password?))
      ensures r.Ok? <==> world(if target.Password? then Rename else Remove).Works?
      ensures r.Ok? ==> keyFile == if target.Password? then old(pendingFile) else None
      ensures pendingFile == if r.Ok? && target.Password? then None else old(pendingFile)
      ensures r.Err? ==> keyFile == old(keyFile)
    {
      hide Proceeds;
      var action := if target.Password? then Rename else Remove;
      if !world(action).Works? {
        job := Switching(target, Failing(target.Password?));
        Record(world(action), key);
        return Err(Outside(action));
      }
      if target.Password? {
        keyFile, pendingFile := pendingFile, None;
      } else {
        keyFile := None;
      }
      job := Switching(target, Flipped(key));
      Record(world(action), key);
      return Ok(());
    }

    method Install(target: Mode, key: Key)
      requires Tracing() && job == Switching(target, Flipped(key))
      modifies this`cipher, this`attempt, this`mode, this`status, this`job, this`trace
      ensures Tracing() && old(trace) <= trace && job == Idle
      ensures mode == target && status == Available && cipher == Some(key) && !attempt
    {
      hide Proceeds;
      cipher := Some(key);
      job := Switching(target, Installed);
      Record(Works, key);
      attempt, mode, status := false, target, Available;
      job := Idle;
      Record(Works, key);
    }

    /** The new key, where the flip will need it. */
    method MakeKey(target: Mode, password: Option<string>, world: World, key: Key) returns (r: Result<(), VaultError>)
      requires Tracing() && job == Switching(target, Begun(password))
      modifies this`keyring, this`pendingFile, this`job, this`trace
      ensures Tracing() && old(trace) <= trace
      ensures job == Switching(target, if r.Ok? then Keyed(key) else Failing(false))
      ensures r.Ok? ==> if target.Password? then password.Some? && pendingFile == Some(KeyFile(key, password.value))
                        else keyring == Some(key)
      ensures if target.Password? then keyring == old(keyring) else pendingFile == old(pendingFile)
      ensures r.Ok? <==> KeyCanBeMade(target, password, world, old(pendingFile))
    {
      hide Proceeds;
      if target.OperatingSystem? {
        r := ResetKeyring(world, key);
        return;
      }
      r := CheckPassword(password, world, key);
      if r.Err? {
        return;
      }
      r := WritePending(password.value, world, key);
    }

    /** Discards the pending file when there is one to discard, and lets the next attempt in. */
    method GiveUp(discard: bool, world: World, target: Mode)
      requires Tracing() && job == Switching(target, Failing(discard))
      modifies this`pendingFile, this`attempt, this`job, this`trace
      ensures Tracing() && old(trace) <= trace && job == Idle && !attempt
      ensures pendingFile == if discard && world(Discard).Works? then None else old(pendingFile)
    {
      hide Proceeds;
      if discard {
        if world(Discard).Works? {
          pendingFile := None;
        }
        job := Switching(target, Failing(false));
        Record(world(Discard), 0);
      }
      attempt := false;
      job := Idle;
      Record(Works, 0);
    }

    /** Clears, flips and installs, once the new key is where the flip needs it. */
    method Complete(world: World, target: Mode, key: Key) returns (r: Result<nat, VaultError>)
      requires Tracing() && job == Switching(target, Keyed(key))
      modifies this
      ensures Tracing() && old(trace) <= trace && job == Idle
      ensures r.Ok? <==> CanComplete(target, world)
      ensures r.Ok? ==> Switched(target, key) && r.value == |old(stored)|
      ensures r.Ok? ==> if target.Password? then keyFile == old(pendingFile)
                        else keyFile == None && keyring == old(keyring)
      ensures r.Err? ==> cipher == old(cipher) && mode == old(mode)
    {
      hide Proceeds;
      var cleared := ClearAllStoredSecrets(world, target, key);
      if cleared.Err? {
        GiveUp(target.Password?, world, target);
        return cleared;
      }
      var flipped := Flip(world, target, key);
      if flipped.Err? {
        GiveUp(target.Password?, world, target);
        return Err(flipped.error);
      }
      Install(target, key);
      return cleared;
    }

    /** A begun switch until its end, good or bad. */
    method Transition(target: Mode, password: Option<string>, world: World, key: Key)
      returns (r: Result<nat, VaultError>)
      requires Tracing() && job == Switching(target, Begun(password))
      modifies this
      ensures Tracing() && old(trace) <= trace && job == Idle
      ensures r.Ok? <==> KeyCanBeMade(target, password, world, old(pendingFile)) && CanComplete(target, world)
      ensures r.Ok? ==> Switched(target, key) && r.value == |old(stored)|
      ensures r.Ok? ==> if target.Password? then password.Some? && keyFile == Some(KeyFile(key, password.value))
                        else keyFile == None && keyring == Some(key)
      ensures r.Err? ==> mode == old(mode)
    {
      hide Proceeds;
      var made := MakeKey(target, password, world, key);
      if made.Err? {
        GiveUp(false, world, target);
        return Err(made.error);
      }
      r := Complete(world, target, key);
    }

    /** `key` is the freshly generated key. Whatever the world answers, the states in between are the
        actions of a switch, one by one, from the begun attempt to its end. */
    method Switch(target: Mode, password: Option<string>, world: World, key: Key) returns (r: Result<nat, VaultError>)
      requires job == Idle
      modifies this
      ensures old(attempt) || old(mode) == target ==> r.Err? && Contents() == old(Contents())
      ensures !old(attempt) && old(mode) != target ==>
                && Proceeds(trace) && |trace| > 0
                && trace[0] == Beginning(System(old(Contents()), Idle), target, password)
                && trace[|trace| - 1] == System(Contents(), Idle)
      ensures job == Idle
      ensures r.Ok? <==> !old(attempt) && old(mode) != target
                         && KeyCanBeMade(target, password, world, old(pendingFile)) && CanComplete(target, world)
      ensures r.Ok? ==> Switched(target, key) && r.value == |old(stored)|
      ensures r.Ok? ==> if target.Password? then keyFile == Some(KeyFile(key, password.value))
                        else keyFile == None && keyring == Some(key)
      ensures r.Ok? && target.Password? ==> Unlocking(Locking(Contents()), password.value) == Contents()
      ensures old(Inv(Now())) && !old(attempt) && old(mode) != target ==>
                && (forall s | s in trace :: Inv(s))
                && if r.Ok? then SwitchedTo(old(Contents()), password, Contents())
                   else Untouched(old(Contents()), Contents())
    {
      hide Inv, SwitchedTo, Untouched, Proceeds, ValidPassword;
      ghost var before := Contents();
      var begun := BeginTransition(target);
      if begun.Err? {
        return Err(begun.error);
      }
      job := Switching(target, Begun(password));
      trace := [Now()];
      OneStateProceeds(Now());
      r := Transition(target, password, world, key);
      if old(Inv(Now())) {
        BegunFits(before, target, password);
        WholeSwitch(before, password, trace);
      }
    }
  }
}
