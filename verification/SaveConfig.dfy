/** One uninterrupted `save_config` call against a failing environment: which error it raises and what
    it leaves behind. */
module SaveConfig {
  import opened Options
  import opened ConfigStore

  const REPLACE_ATTEMPTS := 10

  /** What the operating system answers to one replacement attempt. */
  datatype Attempt = Done | SharingViolation | Denied

  /** Everything the environment decides during one call. */
  datatype Faults = Faults(
    lockTimesOut: bool, writeFails: bool, partial: Bytes, replace: nat -> Attempt,
    syncFails: bool, cleanupFails: bool, unlockFails: bool)

  datatype SaveOutcome = Saved | ConfigConflict | OtherError | ConfigCommitError

  /** Some attempt within the bound succeeds and every earlier one was a sharing violation. */
  ghost predicate ReplaceSucceeds(answers: nat -> Attempt) {
    exists k: nat :: k < 10 && answers(k).Done?
      && forall j: nat :: j < k ==> answers(j).SharingViolation?
  }

  class ConfigFile {
    var target: Option<Bytes>
    var temporary: Option<Bytes>

    constructor (content: Option<Bytes>)
      ensures target == content && temporary == None
    {
      target, temporary := content, None;
    }

    /** `replace_file`: bounded retry of the atomic replacement. */
    method ReplaceFile(answers: nat -> Attempt) returns (replaced: bool)
      requires temporary.Some?
      modifies this
      ensures replaced <==> ReplaceSucceeds(answers)
      ensures replaced ==> target == old(temporary) && temporary == None
      ensures !replaced ==> target == old(target) && temporary == old(temporary)
    {
      var attempt := 0;
      while attempt < REPLACE_ATTEMPTS
        invariant 0 <= attempt <= REPLACE_ATTEMPTS
        invariant target == old(target) && temporary == old(temporary)
        invariant forall j: nat :: j < attempt ==> answers(j).SharingViolation?
      {
        match answers(attempt) {
          case Done =>
            target, temporary := temporary, None;
            return true;
          case SharingViolation =>
          case Denied => return false;
        }
        attempt := attempt + 1;
      }
      return false;
    }
  }

  class LiveConfig {
    var text: Bytes
    var rev: string

    constructor (text: Bytes, rev: string)
      ensures this.text == text && this.rev == rev
    {
      this.text, this.rev := text, rev;
    }
  }

  /** Nothing prevents the replacement. */
  ghost predicate Commits(hash: Bytes -> string, target: Option<Bytes>, rev: string, f: Faults) {
    !f.lockTimesOut && RevisionOf(hash, target) == rev && !f.writeFails && ReplaceSucceeds(f.replace)
  }

  /** The file is replaced exactly when the revision matches and lock, write and replacement succeed;
      only then do file and revision change, and only then can the commit error be raised. */
  method Save(hash: Bytes -> string, file: ConfigFile, cfg: LiveConfig, f: Faults) returns (o: SaveOutcome)
    requires file.temporary.None?
    modifies file, cfg`rev
    ensures o.Saved? || o.ConfigCommitError? <==> Commits(hash, old(file.target), old(cfg.rev), f)
    ensures o.Saved? || o.ConfigCommitError? ==>
      file.target == Some(cfg.text) && cfg.rev == hash(cfg.text) && file.temporary.None?
    ensures o.ConfigConflict? || o.OtherError? ==> file.target == old(file.target) && cfg.rev == old(cfg.rev)
    ensures o.ConfigCommitError? <==>
      Commits(hash, old(file.target), old(cfg.rev), f) && (f.syncFails || f.unlockFails)
    ensures o.ConfigConflict? <==>
      f.lockTimesOut || (RevisionOf(hash, old(file.target)) != old(cfg.rev) && !f.unlockFails)
    ensures file.temporary.Some? ==> f.cleanupFails && o.OtherError?
  {
    var data := cfg.text;
    var committed := false;
    if f.lockTimesOut { return ConfigConflict; }
    var raised := Saved;
    if RevisionOf(hash, file.target) != cfg.rev {
      raised := ConfigConflict;
    } else {
      if f.writeFails {
        file.temporary := Some(f.partial);
        raised := OtherError;
      } else {
        file.temporary := Some(data);
        var replaced := file.ReplaceFile(f.replace);
        if replaced {
          committed := true;
          cfg.rev := hash(data);
          if f.syncFails { raised := OtherError; }
        } else {
          raised := OtherError;
        }
      }
      if file.temporary.Some? {
        if f.cleanupFails { raised := OtherError; } else { file.temporary := None; }
      }
    }
    if f.unlockFails { raised := OtherError; }
    if committed && !raised.Saved? { return ConfigCommitError; }
    return raised;
  }
}
