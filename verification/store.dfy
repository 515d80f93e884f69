/**
 * The mutating expert tools over `experts.json`, with the file system as a
 * value: the state of the experts file and the backup files beside it.
 * Every mutation previews unless confirmed; a confirmed one writes a
 * timestamped backup of the document as loaded, then replaces the file
 * whole (a temporary file renamed over it).
 */
module Store {
  import opened Wrappers
  import opened Config
  import opened Records

  /** What `experts.json` holds when a tool reads it. */
  datatype ExpertsFile =
    | Absent                              // no such file in the data directory
    | Unreadable                          // present, but loading it raises
    | Loaded(experts: seq<Expert>)        // a list of expert records

  /** The step of the write protocol that fails, if any (an I/O fault, given from outside). */
  datatype Fault = NoFault | BackupFails | TempFails | ReplaceFails

  /** What a tool call reports, in place of its message text. */
  datatype Outcome =
    | ConfigMissing                               // no data directory configured
    | FileMissing                                 // experts.json does not exist
    | MissingFields(fields: seq<string>)          // create: absent inputs, in order
    | MissingTarget                               // update: neither id nor name
    | ReadError                                   // experts.json could not be loaded
    | NotFound                                    // update: nothing selected
    | Ambiguous(indices: seq<nat>)                // update: several records selected
    | NoChanges                                   // update: nothing to change
    | InvalidState                                // update: state outside enabled/disabled
    | CreatePreview(record: Expert, duplicate: bool)
    | UpdatePreview(before: Expert, after: Expert)
    | Written(id: string, backup: string)         // persisted; the backup file's name
    | WriteError                                  // a step of the write protocol failed

  /** The name of the backup written at `stamp`, beside experts.json. */
  function BackupName(stamp: string): (r: string)
    ensures |r| == 17 + |stamp|
    ensures r[..17] == "experts.json.bak." && r[17..] == stamp
  {
    "experts.json.bak." + stamp
  }

  /** Backups taken at different stamps are different files; one stamp names one file. */
  lemma BackupNamesDistinct(stamp1: string, stamp2: string)
    ensures BackupName(stamp1) == BackupName(stamp2) <==> stamp1 == stamp2
  {
  }

  class ExpertStore {
    /** `DEFAULT_VERIFAI_PATH`, set once at start-up. */
    const defaultPath: Option<string>
    /** experts.json in the configured directory. */
    var file: ExpertsFile
    /** The backup files beside it, by file name. */
    var backups: map<string, seq<Expert>>

    /** Start-up: the flag, or else the environment value, becomes the default path. */
    constructor (flag: Option<string>, env: Option<string>, file: ExpertsFile, backups: map<string, seq<Expert>>)
      ensures defaultPath == ConfiguredDefault(flag, env)
      ensures this.file == file && this.backups == backups
    {
      defaultPath := ConfiguredDefault(flag, env);
      this.file := file;
      this.backups := backups;
    }

    /** The data directory a call sees, given the environment at that moment. */
    function BaseDir(env: Option<string>): Option<string>
      reads this
    {
      ResolveBasePath(defaultPath, env)
    }

    /**
     * Backup, then replace: the document as loaded goes to the backup file
     * named after `stamp`, then `next` replaces the whole experts file. A
     * failing step leaves the experts file as it was.
     */
    method Persist(next: seq<Expert>, stamp: string, fault: Fault) returns (ok: bool)
      requires file.Loaded?
      modifies this
      ensures ok <==> fault == NoFault
      ensures ok ==> file == Loaded(next)
      ensures !ok ==> file == old(file)
      ensures fault == BackupFails ==> backups == old(backups)
      ensures fault != BackupFails ==> backups == old(backups)[BackupName(stamp) := old(file).experts]
    {
      if fault == BackupFails {
        return false;
      }
      backups := backups[BackupName(stamp) := file.experts];
      var temp := next;
      if fault == TempFails || fault == ReplaceFails {
        return false;
      }
      file := Loaded(temp);
      ok := true;
    }

    /**
     * `create_expert`: checks the configuration, the file and the required
     * inputs, then previews the new record or, confirmed, appends it.
     * `newId` stands for the generated uuid and `stamp` for the backup time.
     */
    method CreateExpert(env: Option<string>, name: Option<string>, prompt: Option<string>, confirm: bool,
                        newId: string, stamp: string, fault: Fault) returns (out: Outcome)
      modifies this
      ensures BaseDir(env).None? ==> out == ConfigMissing
      ensures BaseDir(env).Some? && old(file).Absent? ==> out == FileMissing
      ensures BaseDir(env).Some? && !old(file).Absent? && !(Truthy(name) && Truthy(prompt)) ==>
        out == MissingFields(MissingInputs(name, prompt))
      ensures BaseDir(env).Some? && old(file).Unreadable? && Truthy(name) && Truthy(prompt) ==>
        out == ReadError
      ensures BaseDir(env).Some? && old(file).Loaded? && Truthy(name) && Truthy(prompt) ==>
        var doc := old(file).experts;
        var record := NewExpert(newId, name.value, prompt.value);
        if !confirm then
          out == CreatePreview(record, HasDuplicateName(doc, name.value))
        else if fault == NoFault then
          out == Written(newId, BackupName(stamp)) && file == Loaded(doc + [record])
        else
          out == WriteError
      ensures !out.Written? ==> file == old(file)
      ensures (out.Written? || out.WriteError?) && fault != BackupFails ==>
        backups == old(backups)[BackupName(stamp) := old(file).experts]
      ensures !(out.Written? || out.WriteError?) || fault == BackupFails ==> backups == old(backups)
      ensures !confirm ==> file == old(file) && backups == old(backups)
    {
      if BaseDir(env).None? {
        return ConfigMissing;
      }
      if file.Absent? {
        return FileMissing;
      }
      if !Truthy(name) || !Truthy(prompt) {
        return MissingFields(MissingInputs(name, prompt));
      }
      var record := NewExpert(newId, name.value, prompt.value);
      if file.Unreadable? {
        return ReadError;
      }
      var current := file.experts;
      var duplicate := HasDuplicateName(current, name.value);
      if !confirm {
        return CreatePreview(record, duplicate);
      }
      var ok := Persist(current + [record], stamp, fault);
      out := if ok then Written(newId, BackupName(stamp)) else WriteError;
    }

    /**
     * `update_expert`: resolves exactly one target (by id when given, else by
     * name), builds the updated record by overwriting the supplied fields,
     * and previews it or, confirmed, replaces that one record.
     */
    method UpdateExpert(env: Option<string>, id: Option<string>, name: Option<string>,
                        newName: Option<string>, newPrompt: Option<string>, newState: Option<string>,
                        confirm: bool, stamp: string, fault: Fault) returns (out: Outcome)
      modifies this
      ensures BaseDir(env).None? ==> out == ConfigMissing
      ensures BaseDir(env).Some? && old(file).Absent? ==> out == FileMissing
      ensures BaseDir(env).Some? && !old(file).Absent? && !Truthy(id) && !Truthy(name) ==>
        out == MissingTarget
      ensures BaseDir(env).Some? && old(file).Unreadable? && (Truthy(id) || Truthy(name)) ==>
        out == ReadError
      ensures BaseDir(env).Some? && old(file).Loaded? && (Truthy(id) || Truthy(name)) ==>
        var doc := old(file).experts;
        var c := Changes(newName, newPrompt, newState);
        match Resolve(doc, id, name)
        case NoMatch => out == NotFound
        case Several(indices) => out == Ambiguous(indices)
        case Unique(i) =>
          if NoChange(c) then out == NoChanges
          else if BadState(c) then out == InvalidState
          else if !confirm then out == UpdatePreview(doc[i], Apply(doc[i], c))
          else if fault == NoFault then
            out == Written(doc[i].id, BackupName(stamp)) && file == Loaded(doc[i := Apply(doc[i], c)])
          else out == WriteError
      ensures !out.Written? ==> file == old(file)
      ensures (out.Written? || out.WriteError?) && fault != BackupFails ==>
        backups == old(backups)[BackupName(stamp) := old(file).experts]
      ensures !(out.Written? || out.WriteError?) || fault == BackupFails ==> backups == old(backups)
      ensures !confirm ==> file == old(file) && backups == old(backups)
    {
      if BaseDir(env).None? {
        return ConfigMissing;
      }
      if file.Absent? {
        return FileMissing;
      }
      if !Truthy(id) && !Truthy(name) {
        return MissingTarget;
      }
      if file.Unreadable? {
        return ReadError;
      }
      var current := file.experts;
      var target := Resolve(current, id, name);
      if target.NoMatch? {
        return NotFound;
      }
      if target.Several? {
        return Ambiguous(target.indices);
      }
      var idx := target.index;
      var before := current[idx];
      if newName.None? && newPrompt.None? && newState.None? {
        return NoChanges;
      }
      var updated := before;
      if newName.Some? {
        updated := updated.(name := newName.value);
      }
      if newPrompt.Some? {
        updated := updated.(prompt := newPrompt.value);
      }
      if newState.Some? {
        if !ValidState(newState.value) {
          return InvalidState;
        }
        updated := updated.(state := newState.value);
      }
      assert updated == Apply(before, Changes(newName, newPrompt, newState));
      if !confirm {
        return UpdatePreview(before, updated);
      }
      var ok := Persist(current[idx := updated], stamp, fault);
      out := if ok then Written(updated.id, BackupName(stamp)) else WriteError;
    }
  }

  /**
   * A client of the two update calls: what a preview shows as the new record
   * is exactly what the confirming call with the same arguments then writes,
   * and the backup holds the document both calls saw.
   */
  method PreviewThenConfirm(s: ExpertStore, env: Option<string>, id: Option<string>, name: Option<string>,
                            newName: Option<string>, newPrompt: Option<string>, newState: Option<string>,
                            stamp: string) returns (preview: Outcome, written: Outcome)
    modifies s
    ensures preview.UpdatePreview? ==>
      written == Written(preview.after.id, BackupName(stamp)) &&
      old(s.file).Loaded? &&
      (exists i :: 0 <= i < |old(s.file).experts| && old(s.file).experts[i] == preview.before &&
        s.file == Loaded(old(s.file).experts[i := preview.after])) &&
      BackupName(stamp) in s.backups && s.backups[BackupName(stamp)] == old(s.file).experts
  {
    preview := s.UpdateExpert(env, id, name, newName, newPrompt, newState, false, stamp, NoFault);
    written := s.UpdateExpert(env, id, name, newName, newPrompt, newState, true, stamp, NoFault);
    if preview.UpdatePreview? {
      var doc := old(s.file).experts;
      var i := Resolve(doc, id, name).index;
      assert doc[i] == preview.before;
    }
  }
}
