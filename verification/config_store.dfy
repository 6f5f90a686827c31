/** The placement registry: edits in memory, and debounced saves that race each other to storage. */
module ConfigStore {
  import opened Options

  type Configs = map<string, string>

  /** The save that holds `saveMu`: before or after it has copied the configs. */
  datatype Saver = Idle | Locked | Copied(snapshot: Configs, version: nat)

  /**
   * `armed` is the timer that may still fire; `waiting` counts fired timers that have not got the
   * save lock yet. Versions number the states of memory and belong to the proof.
   */
  datatype State = State(
    memory: Configs, version: nat,
    armed: bool, waiting: nat, saver: Saver,
    stored: Configs, storedVersion: nat, lastSaveFailed: bool)

  datatype Action =
    | Set(id: string, cfg: string)
    | Remove(id: string)
    | Fire          // the timer's function starts
    | Acquire       // one of the started saves gets the lock
    | Copy          // it copies the configs under the read lock
    | Write         // it replaces the stored copy and unlocks
    | WriteFails    // it logs an error and unlocks

  /** `set` and `remove` stop the armed timer, if it has not fired, and arm a new one. */
  function Edit(s: State, memory: Configs): State {
    s.(memory := memory, version := s.version + 1, armed := true)
  }

  function Next(s: State, a: Action): State {
    match a
    case Set(id, cfg) => Edit(s, s.memory[id := cfg])
    case Remove(id) => Edit(s, s.memory - {id})
    case Fire => if s.armed then s.(armed := false, waiting := s.waiting + 1) else s
    case Acquire => if s.waiting > 0 && s.saver.Idle? then s.(waiting := s.waiting - 1, saver := Locked) else s
    case Copy => if s.saver.Locked? then s.(saver := Copied(s.memory, s.version)) else s
    case Write =>
      if s.saver.Copied?
      then s.(saver := Idle, stored := s.saver.snapshot, storedVersion := s.saver.version, lastSaveFailed := false)
      else s
    case WriteFails => if s.saver.Idle? then s else s.(saver := Idle, lastSaveFailed := true)
  }

  /** After `load`: memory is what is stored. */
  function Init(loaded: Configs): State {
    State(loaded, 0, false, 0, Idle, loaded, 0, false)
  }

  function Run(loaded: Configs, actions: seq<Action>): State {
    if actions == [] then Init(loaded)
    else Next(Run(loaded, actions[..|actions| - 1]), actions[|actions| - 1])
  }

  /** Nothing is scheduled, queued or in progress. */
  predicate Quiet(s: State) {
    !s.armed && s.waiting == 0 && s.saver.Idle?
  }

  /** A save that has not copied yet is still to come. */
  predicate CopyAhead(s: State) {
    s.armed || s.waiting > 0 || s.saver.Locked?
  }

  ghost predicate Inv(s: State) {
    && s.storedVersion <= s.version
    && (s.storedVersion == s.version ==> s.stored == s.memory)
    && (s.saver.Copied? ==>
          && s.storedVersion <= s.saver.version <= s.version
          && (s.saver.version == s.version ==> s.saver.snapshot == s.memory)
          && (s.saver.version == s.storedVersion ==> s.saver.snapshot == s.stored))
    // an edit that storage misses is going to be copied, is in the copy in hand, or was in one that failed
    && (s.storedVersion < s.version && !CopyAhead(s) ==>
          if s.saver.Copied? then s.saver.version == s.version else s.lastSaveFailed)
  }

  lemma NextInv(s: State, a: Action)
    requires Inv(s)
    ensures Inv(Next(s, a))
    ensures s.storedVersion <= Next(s, a).storedVersion
  {
  }

  lemma {:induction false} RunInv(loaded: Configs, actions: seq<Action>)
    ensures Inv(Run(loaded, actions))
  {
    if actions != [] {
      RunInv(loaded, actions[..|actions| - 1]);
      NextInv(Run(loaded, actions[..|actions| - 1]), actions[|actions| - 1]);
    }
  }

  /** Whatever the interleaving, an older copy never replaces a newer one. */
  lemma {:induction false} NeverBackwards(loaded: Configs, actions: seq<Action>, n: nat)
    requires n <= |actions|
    ensures Run(loaded, actions[..n]).storedVersion <= Run(loaded, actions).storedVersion
    decreases |actions|
  {
    if n == |actions| {
      assert actions[..n] == actions;
    } else {
      var front := actions[..|actions| - 1];
      RunInv(loaded, front);
      NextInv(Run(loaded, front), actions[|actions| - 1]);
      assert actions[..n] == front[..n];
      NeverBackwards(loaded, front, n);
    }
  }

  /** What a reader of the log knows: was the copy in hand taken after the last edit, and was such a copy written? */
  datatype Seen = Seen(freshCopy: bool, saved: bool)

  function Watch(loaded: Configs, actions: seq<Action>): Seen {
    if actions == [] then Seen(false, true)
    else
      var front, a := actions[..|actions| - 1], actions[|actions| - 1];
      var s, w := Run(loaded, front), Watch(loaded, front);
      if a.Set? || a.Remove? then Seen(false, false)
      else if a.Copy? && s.saver.Locked? then w.(freshCopy := true)
      else if a.Write? && s.saver.Copied? then w.(saved := w.saved || w.freshCopy)
      else w
  }

  lemma {:induction false} WatchedVersions(loaded: Configs, actions: seq<Action>)
    ensures var s, w := Run(loaded, actions), Watch(loaded, actions);
            && (s.saver.Copied? ==> (w.freshCopy <==> s.saver.version == s.version))
            && (w.saved <==> s.storedVersion == s.version)
  {
    hide Next, Inv;
    if actions != [] {
      var front := actions[..|actions| - 1];
      WatchedVersions(loaded, front);
      RunInv(loaded, front);
      WatchStep(Run(loaded, front), actions[|actions| - 1]);
    }
  }

  /** One step of the versions, as the log reader follows them. */
  lemma WatchStep(s: State, a: Action)
    requires Inv(s)
    ensures var s' := Next(s, a);
            if a.Set? || a.Remove? then
              s'.storedVersion < s'.version && (s'.saver.Copied? ==> s'.saver == s.saver && s'.saver.version < s'.version)
            else
              && s'.version == s.version
              && (s'.saver.Copied? ==> if s.saver.Copied? then s'.saver == s.saver else a.Copy? && s.saver.Locked? && s'.saver.version == s.version)
              && s'.storedVersion == if a.Write? && s.saver.Copied? then s.saver.version else s.storedVersion
  {
  }

  /**
   * Once everything has settled, storage holds the last edit if and only if one of the saves that
   * copied memory after that edit was written; then it equals memory, and otherwise the last save failed.
   */
  lemma QuietSavedExactly(loaded: Configs, actions: seq<Action>)
    requires Quiet(Run(loaded, actions))
    ensures var s, w := Run(loaded, actions), Watch(loaded, actions);
            && (s.storedVersion == s.version <==> w.saved)
            && (w.saved ==> s.stored == s.memory)
            && (!w.saved ==> s.lastSaveFailed)
  {
    RunInv(loaded, actions);
    WatchedVersions(loaded, actions);
  }

  lemma {:induction false} NothingFails(loaded: Configs, actions: seq<Action>)
    requires forall i :: 0 <= i < |actions| ==> !actions[i].WriteFails?
    ensures !Run(loaded, actions).lastSaveFailed
  {
    if actions != [] {
      NothingFails(loaded, actions[..|actions| - 1]);
    }
  }

  /** With writes that succeed, a store that has settled holds memory. */
  lemma QuietMeansSaved(loaded: Configs, actions: seq<Action>)
    requires Quiet(Run(loaded, actions)) && forall i :: 0 <= i < |actions| ==> !actions[i].WriteFails?
    ensures Run(loaded, actions).stored == Run(loaded, actions).memory
  {
    NothingFails(loaded, actions);
    QuietSavedExactly(loaded, actions);
  }

  /** What is stored is always memory as it was after some part of the run, the whole of it if all is saved. */
  lemma {:induction false} StoredWasMemory(loaded: Configs, actions: seq<Action>) returns (n: nat, m: nat)
    ensures n <= |actions| && m <= |actions|
    ensures Run(loaded, actions).stored == Run(loaded, actions[..n]).memory
    ensures Run(loaded, actions).storedVersion == Run(loaded, actions[..n]).version
    ensures var s := Run(loaded, actions);
            s.saver.Copied? ==> s.saver.snapshot == Run(loaded, actions[..m]).memory && s.saver.version == Run(loaded, actions[..m]).version
  {
    hide Next;
    if actions == [] {
      n, m := 0, 0;
    } else {
      var last := |actions| - 1;
      var front, a := actions[..last], actions[last];
      n, m := StoredWasMemory(loaded, front);
      assert front[..n] == actions[..n] && front[..m] == actions[..m];
      StoredStep(Run(loaded, front), a);
      if a.Write? && Run(loaded, front).saver.Copied? {
        n := m;
      } else if a.Copy? && Run(loaded, front).saver.Locked? {
        m := last;
      }
    }
  }

  lemma StoredStep(s: State, a: Action)
    ensures var s' := Next(s, a);
            && (if a.Write? && s.saver.Copied? then s'.stored == s.saver.snapshot && s'.storedVersion == s.saver.version
                else s'.stored == s.stored && s'.storedVersion == s.storedVersion)
            && (s'.saver.Copied? ==>
                  if a.Copy? && s.saver.Locked? then s'.saver.snapshot == s.memory && s'.saver.version == s.version
                  else s'.saver == s.saver)
  {
  }

  /** Let timers and saves run to the end, without further edits and without failures. */
  function Drain(s: State): State
    decreases 4 * s.waiting + (if s.armed then 5 else 0)
              + (match s.saver case Idle => 0 case Locked => 2 case Copied(_, _) => 1)
  {
    if s.saver.Copied? then Drain(Next(s, Write))
    else if s.saver.Locked? then Drain(Next(s, Copy))
    else if s.waiting > 0 then Drain(Next(s, Acquire))
    else if s.armed then Drain(Next(s, Fire))
    else s
  }

  lemma {:induction false} DrainSaves(s: State)
    requires Inv(s)
    ensures Quiet(Drain(s)) && Drain(s).memory == s.memory
    ensures Quiet(s) ==> Drain(s) == s
    ensures !Quiet(s) ==> Drain(s).stored == s.memory && !Drain(s).lastSaveFailed
    decreases 4 * s.waiting + (if s.armed then 5 else 0)
              + (match s.saver case Idle => 0 case Locked => 2 case Copied(_, _) => 1)
  {
    if !Quiet(s) {
      var a := if s.saver.Copied? then Write else if s.saver.Locked? then Copy else if s.waiting > 0 then Acquire else Fire;
      NextInv(s, a);
      DrainSaves(Next(s, a));
    }
  }

  /** No edit is ever out of reach of storage: from any point of any run, draining stores memory. */
  lemma EditsReachStorage(loaded: Configs, actions: seq<Action>)
    requires !Quiet(Run(loaded, actions))
    ensures Drain(Run(loaded, actions)).stored == Run(loaded, actions).memory
  {
    RunInv(loaded, actions);
    DrainSaves(Run(loaded, actions));
  }

  /** A save that fails is not tried again: everything is quiet and the edit is only in memory. */
  lemma FailedSaveIsNotRetried()
    ensures var s := Run(map[], [Set("p", "c"), Fire, Acquire, Copy, WriteFails]);
            Quiet(s) && s.memory == map["p" := "c"] && s.stored == map[]
  {
    var as5 := [Set("p", "c"), Fire, Acquire, Copy, WriteFails];
    var as4, as3, as2, as1 := as5[..4], as5[..3], as5[..2], as5[..1];
    assert as4[..3] == as3 && as3[..2] == as2 && as2[..1] == as1 && as1[..0] == [];
    assert Run(map[], as1) == Edit(Init(map[]), map["p" := "c"]);
    assert Run(map[], as3).saver == Locked;
  }
}
