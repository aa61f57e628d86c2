/** What the store holds after any run: the content of the moment when its last remaining block was committed. */
module ContentHistory {
  import opened Chain
  import opened Entities
  import opened Runner
  import opened Pipeline

  /** The content after the first `j` blocks of the log, as the log remembers it. */
  function ContentAt(s: Store, j: nat): Content
    requires j <= |s.log|
  {
    if j == |s.log| then s.content else s.log[j].before
  }

  ghost predicate Committed(s: Store, s': Store) {
    s'.log != [] && s'.log[..|s'.log| - 1] == s.log && s'.log[|s'.log| - 1].before == s.content
  }

  /** Only the first `m` blocks of the log are left. */
  ghost predicate CutTo(s: Store, m: nat, s': Store) {
    m <= |s.log| && s'.log == s.log[..m] && s'.content == ContentAt(s, m)
  }

  ghost predicate StoreStep(s: Store, s': Store) {
    Committed(s, s') || exists m: nat :: CutTo(s, m, s')
  }

  lemma {:induction false} UndoCuts(s: Store, n: int) returns (m: nat)
    ensures CutTo(s, m, Undo(s, n))
    decreases |s.log|
  {
    if s.log == [] || Number(s.log[|s.log| - 1].block) <= n {
      m := |s.log|;
      assert s.log[..m] == s.log;
    } else {
      var t := s.(log := s.log[..|s.log| - 1], content := s.log[|s.log| - 1].before);
      m := UndoCuts(t, n);
      assert t.log[..m] == s.log[..m];
    }
  }

  lemma RevertCuts(s: Store, to: Block)
    ensures StoreStep(s, RevertStore(s, to))
  {
    var m := UndoCuts(s, Number(to));
    assert CutTo(s, m, RevertStore(s, to));
  }

  lemma SameCuts(s: Store, s': Store)
    requires s'.log == s.log && s'.content == s.content
    ensures StoreStep(s, s')
  {
    assert s.log[..|s.log|] == s.log;
    assert CutTo(s, |s.log|, s');
  }

  lemma BlockStepCommits(s: System, env: Environment, r: Handled, committed: bool, s': System)
    requires BlockStep(s, env, r, committed, s')
    ensures StoreStep(s.store, s'.store)
  {
    if committed {
      assert s'.store.log[..|s'.store.log| - 1] == s.store.log;
    } else {
      SameCuts(s.store, s'.store);
    }
  }

  lemma RevertStepCuts(s: System, r: Handled, s': System)
    requires RevertStep(s, r, s')
    ensures StoreStep(s.store, s'.store)
  {
    if s'.store == s.store {
      SameCuts(s.store, s'.store);
    } else {
      RevertCuts(s.store, s.queue[0].to);
    }
  }

  lemma StartStepCuts(s: System, unfail: bool, s': System)
    requires StartStep(s, unfail, s')
    ensures StoreStep(s.store, s'.store)
  {
    if unfail {
      RevertCuts(s.store, s.store.ptr.parent);
    } else {
      SameCuts(s.store, s'.store);
    }
  }

  lemma NextStoreStep(s: System, s': System)
    requires Next(s, s')
    ensures StoreStep(s.store, s'.store)
  {
    if env, r, committed :| BlockStep(s, env, r, committed, s') {
      BlockStepCommits(s, env, r, committed, s');
    } else if r :| RevertStep(s, r, s') {
      RevertStepCuts(s, r, s');
    } else if unfail :| StartStep(s, unfail, s') {
      StartStepCuts(s, unfail, s');
    } else {
      SameCuts(s.store, s'.store);
    }
  }

  /** In state `h` the `j`-th block of `now`'s log had just been committed, or the run began, with the content the log says. */
  ghost predicate WasThen(run: seq<System>, h: nat, now: Store, j: nat)
    requires h < |run| && j <= |now.log|
  {
    && run[h].store.log == now.log[..j] && run[h].store.content == ContentAt(now, j)
    && (if j == 0 then h == 0 else h > 0 && run[h - 1].store.log == now.log[..j - 1])
  }

  lemma WasThenStays(run: seq<System>, h: nat, s: Store, s': Store, j: nat)
    requires h < |run| && j <= |s.log| && j <= |s'.log| && WasThen(run, h, s, j)
    requires s'.log[..j] == s.log[..j] && ContentAt(s', j) == ContentAt(s, j)
    ensures WasThen(run, h, s', j)
  {
    if j > 0 {
      assert s'.log[..j - 1] == s'.log[..j][..j - 1] == s.log[..j][..j - 1] == s.log[..j - 1];
    }
  }

  /** A step keeps what the log remembers of the blocks it keeps. */
  lemma StepRemembers(s: Store, s': Store, j: nat)
    requires StoreStep(s, s') && j <= |s'.log| && !(Committed(s, s') && j == |s'.log|)
    ensures j <= |s.log| && s'.log[..j] == s.log[..j] && ContentAt(s', j) == ContentAt(s, j)
  {
    if Committed(s, s') {
      assert s'.log[..j] == s'.log[..|s'.log| - 1][..j];
    } else {
      var m: nat :| CutTo(s, m, s');
      assert s'.log[..j] == s.log[..m][..j];
    }
  }

  lemma JustCommitted(run: seq<System>, i: nat)
    requires 0 < i < |run| && Committed(run[i - 1].store, run[i].store)
    ensures WasThen(run, i, run[i].store, |run[i].store.log|)
  {
    var log := run[i].store.log;
    assert log[..|log|] == log;
  }

  lemma {:induction false} LogRemembers(run: seq<System>, i: nat, j: nat) returns (h: nat)
    requires Run(run) && i < |run| && j <= |run[i].store.log|
    ensures h <= i && WasThen(run, h, run[i].store, j)
  {
    if i == 0 {
      h := 0;
    } else {
      NextStoreStep(run[i - 1], run[i]);
      if Committed(run[i - 1].store, run[i].store) && j == |run[i].store.log| {
        h := i;
        JustCommitted(run, i);
      } else {
        StepRemembers(run[i - 1].store, run[i].store, j);
        h := LogRemembers(run, i - 1, j);
        WasThenStays(run, h, run[i - 1].store, run[i].store, j);
      }
    }
  }

  /**
   In every state of every run, whatever was committed and reverted since, the content is what it was
   right after the last block that is still committed, or at the start if none is.
   */
  lemma ContentIsOfLastCommit(run: seq<System>, i: nat) returns (h: nat)
    requires Run(run) && i < |run|
    ensures h <= i && run[h].store.log == run[i].store.log && run[h].store.content == run[i].store.content
    ensures if run[i].store.log == [] then h == 0
            else h > 0 && run[h - 1].store.log == run[i].store.log[..|run[i].store.log| - 1]
  {
    var log := run[i].store.log;
    h := LogRemembers(run, i, |log|);
    assert log[..|log|] == log;
  }
}
