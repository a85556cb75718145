/**
 The reads of siem/rbac/broker_tls/operator_fs.py on files that nobody changes during the
 call: what they return is then a matter of one file-system state.
 */
module StillFiles {
  import opened Common
  import opened Kernel
  import opened OperatorFs

  /** From `first` to `last` the file system is in one state and no call fails by itself. */
  ghost predicate Still(env: Env, fs: Fs, first: nat, last: nat) {
    forall u :: first <= u <= last ==> env.history(u) == fs && env.fault(u).None?
  }

  /** What a path below `parent` holds, or the first thing that is wrong with it. */
  function Lookup(fs: Fs, parent: Inode, parts: seq<string>, i: nat, limit: nat, owners: Owners): Result<seq<byte>, Error>
    requires i < |parts|
    decreases |parts| - i
  {
    if parent !in fs || parts[i] !in fs[parent].entries || fs[parent].entries[parts[i]] !in fs then Err(Os(ENOENT))
    else
      var n := fs[parent].entries[parts[i]];
      if !Trusted(fs[n].stat, !Leaf(parts, i), owners(parts[..i + 1])) then Err(FS_METADATA)
      else if !Leaf(parts, i) then Lookup(fs, n, parts, i + 1, limit, owners)
      else if fs[n].stat.size > limit || |fs[n].data| != fs[n].stat.size then Err(FS_SIZE)
      else Ok(fs[n].data)
  }

  /** The same from the root, for any path and limit. */
  function LookupRoot(fs: Fs, root: Inode, parts: seq<string>, limit: int, owners: Owners): Result<seq<byte>, Error> {
    if !Components(parts) then Err(FS_COMPONENTS)
    else if !(0 <= limit <= MAX_READ) then Err(FS_BOUND)
    else if root !in fs || fs[root].stat.kind != Directory then Err(Os(ENOTDIR))
    else if !Trusted(fs[root].stat, true, owners([])) then Err(FS_METADATA)
    else Lookup(fs, root, parts, 0, limit, owners)
  }

  /** The loop gets to the end of the file, however little each read gives, or past the limit. */
  lemma {:induction false} ChunksOfStill(env: Env, fs: Fs, t: nat, inode: Inode, data: seq<byte>, limit: nat)
    requires inode in fs && data <= fs[inode].data && Still(env, fs, t, Chunks(env, t, inode, data, limit).time)
    ensures var run := Chunks(env, t, inode, data, limit);
            run.result.Ok? && if |fs[inode].data| <= limit then run.result.value == fs[inode].data else |run.result.value| > limit
    decreases limit + 1 - |data|
  {
    if |data| <= limit {
      var t1 := Next(env.gap, t);
      var chunk := ReadAt(env, t1, inode, |data|, Amount(limit, |data|));
      assert t1 <= Chunks(env, t, inode, data, limit).time;
      assert env.history(t1) == fs && env.fault(t1).None?;
      if chunk.value != [] {
        assert data + chunk.value <= fs[inode].data;
        ChunksOfStill(env, fs, t1, inode, data + chunk.value, limit);
      }
    }
  }

  /** Entering a component that is there and trusted succeeds; otherwise it fails as the lookup does. */
  lemma EnterStill(env: Env, fs: Fs, t: nat, parent: Inode, parts: seq<string>, i: nat, limit: nat, owners: Owners)
    requires i < |parts| && parent in fs && Still(env, fs, t, Enter(env, t, parent, parts, i, limit, owners).time)
    ensures var result := Enter(env, t, parent, parts, i, limit, owners).result;
            if parts[i] !in fs[parent].entries || fs[parent].entries[parts[i]] !in fs then result == Err(Os(ENOENT))
            else
              var n := fs[parent].entries[parts[i]];
              if !Trusted(fs[n].stat, !Leaf(parts, i), owners(parts[..i + 1])) then result == Err(FS_METADATA)
              else if Leaf(parts, i) && fs[n].stat.size > limit then result == Err(FS_SIZE)
              else result == Ok(Record(parent, parts[i], n, fs[n].stat))
  {
    var t1 := Next(env.gap, t);
    var t2 := Next(env.gap, t1);
    var t3 := Next(env.gap, t2);
    assert t1 <= Enter(env, t, parent, parts, i, limit, owners).time;
    assert env.history(t1) == fs && env.fault(t1).None?;
  }

  lemma LeaveStill(env: Env, fs: Fs, inner: Run<Reading>, record: Record)
    requires record.inode in fs && record.parent in fs && record.name in fs[record.parent].entries
    requires fs[record.parent].entries[record.name] == record.inode && fs[record.inode].stat == record.before
    requires Still(env, fs, inner.time, Leave(env, inner, record).time)
    ensures Bytes(Leave(env, inner, record)) == Bytes(inner)
  {
    if inner.result.Ok? {
      var t1 := Next(env.gap, inner.time);
      var t2 := Next(env.gap, t1);
      assert t1 <= Leave(env, inner, record).time;
      assert env.history(t1) == fs && env.fault(t1).None?;
      assert t2 <= Leave(env, inner, record).time;
    }
  }

  lemma ContentsStill(env: Env, fs: Fs, t: nat, record: Record, limit: nat)
    requires record.inode in fs && fs[record.inode].stat == record.before && record.before.size <= limit
    requires Still(env, fs, t, Contents(env, t, record, limit).time)
    ensures var node := fs[record.inode];
            Bytes(Contents(env, t, record, limit)) == if |node.data| == node.stat.size then Ok(node.data) else Err(FS_SIZE)
  {
    ChunksOfStill(env, fs, t, record.inode, [], limit);
  }

  lemma {:induction false} BelowStill(env: Env, fs: Fs, t: nat, parent: Inode, parts: seq<string>, i: nat, limit: nat, owners: Owners)
    requires i < |parts| && parent in fs && Still(env, fs, t, Below(env, t, parent, parts, i, limit, owners).time)
    ensures Bytes(Below(env, t, parent, parts, i, limit, owners)) == Lookup(fs, parent, parts, i, limit, owners)
    decreases |parts| - i
  {
    var entered := Enter(env, t, parent, parts, i, limit, owners);
    if entered.result.Ok? {
      var record := entered.result.value;
      var inner := Inner(env, entered.time, record, parts, i, limit, owners);
      assert entered.time <= inner.time <= Below(env, t, parent, parts, i, limit, owners).time;
      EnterStill(env, fs, t, parent, parts, i, limit, owners);
      if Leaf(parts, i) {
        ContentsStill(env, fs, entered.time, record, limit);
      } else {
        BelowStill(env, fs, entered.time, record.inode, parts, i + 1, limit, owners);
      }
      LeaveStill(env, fs, inner, record);
    } else {
      EnterStill(env, fs, t, parent, parts, i, limit, owners);
    }
  }

  /**
   On files that do not change during the call, the read returns exactly what one lookup
   in that state gives, bytes or failure, whatever the delays and however short the reads.
   */
  lemma ReadIsLookup(env: Env, fs: Fs, t: nat, parts: seq<string>, limit: int, owners: Owners)
    requires Still(env, fs, t, ReadsRoot(env, t, parts, limit, owners).time)
    ensures Bytes(ReadsRoot(env, t, parts, limit, owners)) == LookupRoot(fs, env.root, parts, limit, owners)
  {
    if Components(parts) && 0 <= limit <= MAX_READ {
      var t1 := Next(env.gap, t);
      assert t1 <= ReadsRoot(env, t, parts, limit, owners).time;
      assert env.history(t1) == fs && env.fault(t1).None?;
      if OpenRootAt(env, t1).Ok? {
        HeldRootStill(env, fs, t1, parts, limit, owners);
      }
    }
  }

  lemma HeldRootStill(env: Env, fs: Fs, t: nat, parts: seq<string>, limit: nat, owners: Owners)
    requires Components(parts) && limit <= MAX_READ && env.root in fs
    requires Still(env, fs, t, Reads(env, t, env.root, parts, limit, owners).time)
    ensures Bytes(Reads(env, t, env.root, parts, limit, owners)) ==
            if Trusted(fs[env.root].stat, true, owners([])) then Lookup(fs, env.root, parts, 0, limit, owners) else Err(FS_METADATA)
  {
    var end := Reads(env, t, env.root, parts, limit, owners).time;
    var t1 := Next(env.gap, t);
    assert t1 <= end;
    assert env.history(t1) == fs && env.fault(t1).None?;
    if Trusted(fs[env.root].stat, true, owners([])) {
      var inner := Below(env, t1, env.root, parts, 0, limit, owners);
      assert inner.time <= end;
      BelowStill(env, fs, t1, env.root, parts, 0, limit, owners);
      if inner.result.Ok? {
        assert Next(env.gap, inner.time) == end;
      }
    }
  }

  /** The lookup succeeds exactly on trusted paths to files of the stated size within the limit. */
  lemma {:induction false} LookupSucceedsExactly(fs: Fs, parent: Inode, parts: seq<string>, i: nat, limit: nat, owners: Owners, data: seq<byte>)
    requires i < |parts|
    ensures Lookup(fs, parent, parts, i, limit, owners) == Ok(data) <==>
            && ContentAt(fs, parent, parts, i, owners) == Some(data)
            && LeafAt(fs, parent, parts, i, owners).value.stat.size == |data| <= limit
    decreases |parts| - i
  {
    if parent in fs && parts[i] in fs[parent].entries && fs[parent].entries[parts[i]] in fs && !Leaf(parts, i) {
      LookupSucceedsExactly(fs, fs[parent].entries[parts[i]], parts, i + 1, limit, owners, data);
    }
  }

  /** The root is a trusted directory, and the path leads on trusted nodes to a file of its stated size, within the limit. */
  predicate Holds(fs: Fs, root: Inode, parts: seq<string>, limit: int, owners: Owners, data: seq<byte>) {
    && Components(parts) && 0 <= limit <= MAX_READ
    && root in fs && Trusted(fs[root].stat, true, owners([]))
    && ContentAt(fs, root, parts, 0, owners) == Some(data)
    && LeafAt(fs, root, parts, 0, owners).value.stat.size == |data| <= limit
  }

  /** A read of files that do not change succeeds, with these bytes, exactly when the path holds them. */
  lemma StillReadSucceedsExactly(env: Env, fs: Fs, t: nat, parts: seq<string>, limit: int, owners: Owners, data: seq<byte>)
    requires Still(env, fs, t, ReadsRoot(env, t, parts, limit, owners).time)
    ensures Bytes(ReadsRoot(env, t, parts, limit, owners)) == Ok(data) <==> Holds(fs, env.root, parts, limit, owners, data)
  {
    ReadIsLookup(env, fs, t, parts, limit, owners);
    if Components(parts) && 0 <= limit <= MAX_READ {
      LookupSucceedsExactly(fs, env.root, parts, 0, limit, owners, data);
    }
  }
}
