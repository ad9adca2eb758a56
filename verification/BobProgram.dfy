/**
  What BobFS is for: over any run of reads, writes, links, look-ups and new nodes, its users see
  byte sequences and directories that change only as they ask.
*/
module BobProgram {
  import opened BobFiles
  import opened Directories
  import opened IdeDisk
  import opened Options
  import opened Volume
  import opened VolumeLayout

  /** The contents of the files, and the entries of the directories, by inumber. */
  datatype State = State(files: map<nat, seq<Byte>>, dirs: Dirs)

  ghost function Held(v: Vol, dirs: Dirs): State
    requires Sized(v)
  {
    State(Contents(v) - dirs.Keys, dirs)
  }

  datatype Event =
    | Wrote(k: nat, off: nat, c: seq<Byte>)
    | ReadOut(k: nat, off: nat, n: nat, r: seq<Byte>)
    | Made(d: nat, name: seq<Byte>, kind: Word16, k: nat)
    | NoInode
    | Linked(d: nat, name: seq<Byte>, k: nat)
    | Found(d: nat, name: seq<Byte>, node: Option<nat>)

  function Slice(f: seq<Byte>, off: nat, n: nat): seq<Byte> {
    if off >= |f| then [] else if off + n < |f| then f[off..off + n] else f[off..]
  }

  function Added(dirs: Dirs, d: nat, e: DirEntry): Dirs
    requires d in dirs
  {
    dirs[d := dirs[d] + [e]]
  }

  ghost predicate Happens(s: State, ev: Event, s': State) {
    match ev
    case Wrote(k, off, c) =>
      k in s.files && s' == if c == [] then s else s.(files := s.files[k := Overwrite(s.files[k], off, c)])
    case ReadOut(k, off, n, r) => k in s.files && r == Slice(s.files[k], off, n) && s' == s
    case Made(d, name, kind, k) =>
      && k < COUNT && k !in s.files && k !in s.dirs && d in s.dirs
      && s' == (if kind == DIR_TYPE then State(s.files, Added(s.dirs[k := []], d, DirEntry(k, name)))
                else State(s.files[k := []], Added(s.dirs, d, DirEntry(k, name))))
    case NoInode => s' == s && forall k :: 0 <= k < COUNT ==> k in s.files || k in s.dirs
    case Linked(d, name, node) =>
      && d in s.dirs && (node in s.files || node in s.dirs) && node < COUNT
      && s' == State(s.files, Added(s.dirs, d, DirEntry(node, name)))
    case Found(d, name, node) => d in s.dirs && node == First(s.dirs[d], name) && s' == s
  }

  ghost predicate Runs(s: State, trace: seq<Event>, s': State)
    decreases |trace|
  {
    if trace == [] then s' == s
    else
      var front, last := trace[..|trace| - 1], trace[|trace| - 1];
      exists mid :: Runs(s, front, mid) && Happens(mid, last, s')
  }

  lemma RunsSnoc(s: State, trace: seq<Event>, mid: State, ev: Event, s': State)
    requires Runs(s, trace, mid) && Happens(mid, ev, s')
    ensures Runs(s, trace + [ev], s')
  {
    assert (trace + [ev])[..|trace + [ev]| - 1] == trace;
  }

  /** A file changes only when it is written, and no name once found ever stands for another inode. */
  lemma {:induction false} Stable(s: State, trace: seq<Event>, s': State, k: nat, d: nat, name: seq<Byte>)
    requires Runs(s, trace, s')
    requires forall i :: 0 <= i < |trace| ==> !(trace[i].Wrote? && trace[i].k == k)
    ensures k in s.files ==> k in s'.files && s'.files[k] == s.files[k]
    ensures d in s.dirs && First(s.dirs[d], name).Some? ==>
      d in s'.dirs && First(s'.dirs[d], name) == First(s.dirs[d], name)
    decreases |trace|
  {
    if trace != [] {
      var front, last := trace[..|trace| - 1], trace[|trace| - 1];
      var mid :| Runs(s, front, mid) && Happens(mid, last, s');
      Stable(s, front, mid, k, d, name);
      if d in mid.dirs && (last.Made? || last.Linked?) && last.d == d {
        FirstAppend(mid.dirs[d], DirEntry(last.k, last.name), name);
      }
    }
  }

  // ---- what the operations do, on the state

  lemma WriteHappens(v: Vol, own: Owners, dirs: Dirs, v': Vol, k: nat, off: nat, c: seq<Byte>)
    requires Ok(v, own) && k < COUNT && v.used[k] && k !in dirs && Sized(v')
    requires if c == [] then v' == v else Rewrote(v, v', k, off, c)
    ensures Happens(Held(v, dirs), Wrote(k, off, c), Held(v', dirs))
  {
    hide Ok, Rewrote, File, Overwrite;
    if c != [] { WriteRefines(v, own, v', k, off, c); }
  }

  lemma ReadHappens(v: Vol, own: Owners, dirs: Dirs, v': Vol, k: nat, off: nat, n: nat, r: seq<Byte>)
    requires Ok(v, own) && Quiet(v, v') && k < COUNT && v.used[k] && k !in dirs && r == Slice(File(v, k), off, n)
    ensures Happens(Held(v, dirs), ReadOut(k, off, n, r), Held(v', dirs))
  {
    hide Ok, Quiet, File;
    ReadRefines(v, own, v');
  }

  lemma FindHappens(v: Vol, own: Owners, dirs: Dirs, v': Vol, d: nat, name: seq<Byte>)
    requires Ok(v, own) && Quiet(v, v') && d in dirs
    ensures Happens(Held(v, dirs), Found(d, name, First(dirs[d], name)), Held(v', dirs))
  {
    hide Ok, Quiet, File, First;
    ReadRefines(v, own, v');
  }

  lemma LinkHappens(v: Vol, dirs: Dirs, v': Vol, d: nat, name: seq<Byte>, node: nat)
    requires Sized(v) && Sized(v') && v'.used == v.used && d in dirs && node < COUNT && v.used[node]
    requires forall k :: 0 <= k < COUNT && v.used[k] && k != d ==> File(v', k) == File(v, k)
    ensures Happens(Held(v, dirs), Linked(d, name, node), Held(v', Added(dirs, d, DirEntry(node, name))))
  {
    hide File;
  }

  lemma MakeHappens(v: Vol, dirs: Dirs, v': Vol, d: nat, name: seq<Byte>, kind: Word16, k: nat)
    requires Sized(v) && Sized(v') && d in dirs && k < COUNT && !v.used[k] && k !in dirs && v'.used == v.used[k := true]
    requires File(v', k) == [] && forall j :: 0 <= j < COUNT && v.used[j] && j != d ==> File(v', j) == File(v, j)
    ensures Happens(Held(v, dirs), Made(d, name, kind, k),
                    Held(v', Added(if kind == DIR_TYPE then dirs[k := []] else dirs, d, DirEntry(k, name))))
  {
    hide File;
  }

  lemma FullHappens(v: Vol, dirs: Dirs)
    requires Sized(v) && forall k :: 0 <= k < COUNT ==> v.used[k]
    ensures Happens(Held(v, dirs), NoInode, Held(v, dirs))
  {
    hide File;
  }

  // ---- a user of the volume

  datatype Op =
    | Write(k: nat, off: nat, c: seq<Byte>)
    | Read(k: nat, off: nat, n: nat)
    | NewNode(d: nat, name: seq<Byte>, kind: Word16)
    | Link(d: nat, name: seq<Byte>, node: nat)
    | Find(d: nat, name: seq<Byte>)

  predicate Answers(op: Op, ev: Event) {
    match op
    case Write(k, off, c) => ev == Wrote(k, off, c)
    case Read(k, off, n) => ev.ReadOut? && ev.k == k && ev.off == off && ev.n == n
    case NewNode(d, name, kind) => ev.NoInode? || (ev.Made? && ev.d == d && ev.name == name && ev.kind == kind)
    case Link(d, name, node) => ev == Linked(d, name, node)
    case Find(d, name) => ev.Found? && ev.d == d && ev.name == name
  }

  predicate Uses(v: Vol, k: nat)
    requires Sized(v)
  {
    k < COUNT && v.used[k]
  }

  predicate IsDir(v: Vol, k: nat)
    requires Sized(v)
  {
    Uses(v, k) && v.inodes[k].kind == DIR_TYPE
  }

  /** The operation names what there is, and the volume has room for it. */
  predicate Allowed(fs: BobFS, op: Op)
    requires fs.Mounted()
    reads fs.device.disk
  {
    var v := fs.Vol();
    match op
    case Write(k, off, c) =>
      Uses(v, k) && !IsDir(v, k) && off + |c| <= SPAN && Enough(v, k, off / BLOCK, fs.Stop(off, |c|))
    case Read(k, off, n) =>
      Uses(v, k) && !IsDir(v, k) && Enough(v, k, off / BLOCK, LastBlock(fs, v.inodes[k].size, off, n))
    case NewNode(d, name, _) => IsDir(v, d) && HasRoom(fs, v, d, name)
    case Link(d, name, node) => IsDir(v, d) && HasRoom(fs, v, d, name) && Uses(v, node)
    case Find(d, name) => IsDir(v, d) && Nameable(name) && Enough(v, d, 0, fs.Stop(0, v.inodes[d].size))
  }

  /** The block before which a read stops */
  function LastBlock(fs: BobFS, size: nat, off: nat, n: nat): nat {
    if off < size then fs.Stop(off, fs.Upto(size, off, n) - off) else 0
  }

  predicate HasRoom(fs: BobFS, v: Vol, d: nat, name: seq<Byte>)
    requires Sized(v) && d < COUNT
  {
    var size := v.inodes[d].size;
    Nameable(name) && size + 8 + |name| <= SPAN && Enough(v, d, size / BLOCK, fs.Stop(size, 8 + |name|))
  }

  lemma InDirs(v: Vol, dirs: Dirs, k: nat)
    requires Sized(v) && Tree(v, dirs)
    ensures IsDir(v, k) <==> k in dirs
  {
  }

  ghost function Now(fs: BobFS): State
    requires fs.Mounted()
    reads fs, fs.device.disk
  {
    Held(fs.Vol(), fs.dirs)
  }

  /** With 258 free blocks, as many as the longest transfer can take, only names and the size limit matter. */
  lemma AllowedWhen(fs: BobFS, op: Op)
    requires fs.ValidTree() && Free(fs.Vol()) >= 258
    ensures Allowed(fs, op) <==>
      match op
      case Write(k, off, c) => k in Now(fs).files && off + |c| <= 257 * 1024
      case Read(k, _, _) => k in Now(fs).files
      case NewNode(d, name, _) => d in fs.dirs && Fits(fs.dirs[d], name)
      case Link(d, name, node) =>
        d in fs.dirs && Fits(fs.dirs[d], name) && (node in Now(fs).files || node in fs.dirs)
      case Find(d, name) => d in fs.dirs && Nameable(name)
  {
    hide Owned, File, Encode, Counted, Closed, Decode, Free, Needs;
    var v := fs.Vol();
    forall k: nat, lo: nat, hi: nat | hi <= ENTRIES + 1 ensures Enough(v, k, lo, hi) { NeedsBound(v, k, lo, hi); }
    forall k ensures (IsDir(v, k) <==> k in fs.dirs) && (Uses(v, k) && !IsDir(v, k) <==> k in Now(fs).files) {
      InDirs(v, fs.dirs, k);
    }
    forall d | d in fs.dirs ensures IsDir(v, d) && v.inodes[d].size == |EncodeOr(fs.dirs[d])| { FileLength(v, d); }
  }

  /** The directory has room for one more entry of that name in its 257 KiB. */
  predicate Fits(es: seq<DirEntry>, name: seq<Byte>) { Nameable(name) && |EncodeOr(es)| + 8 + |name| <= 257 * 1024 }

  function EncodeOr(es: seq<DirEntry>): seq<Byte> { if Names(es) then Encode(es) else [] }

  lemma {:induction false} HolesBound(v: Vol, k: nat, lo: nat, hi: nat)
    requires Volume.Sized(v)
    ensures lo <= hi ==> Holes(v, k, lo, hi) <= hi - lo
    decreases hi - lo
  {
    if lo < hi { HolesBound(v, k, lo + 1, hi); }
  }

  lemma NeedsBound(v: Vol, k: nat, lo: nat, hi: nat)
    requires Volume.Sized(v)
    ensures Needs(v, k, lo, hi) <= hi + 1
  {
    HolesBound(v, k, lo, hi);
  }

  method Perform(fs: BobFS, op: Op) returns (ghost ev: Event)
    requires fs.ValidTree() && Allowed(fs, op)
    modifies fs`own, fs`dirs, fs.device.disk
    ensures fs.ValidTree() && Answers(op, ev) && Happens(old(Now(fs)), ev, Now(fs))
  {
    hide Ok, Tree, Quiet, Happens, Held, File, Decode, Enough;
    ghost var v, dirs, own := fs.Vol(), fs.dirs, fs.own;
    match op
    case Write(k, off, c) =>
      InDirs(v, dirs, k);
      var n := fs.WriteAll(k, off, c, fs.Stop(off, |c|));
      WriteHappens(v, own, dirs, fs.Vol(), k, off, c);
      ev := Wrote(k, off, c);
    case Read(k, off, n) =>
      InDirs(v, dirs, k);
      var r := fs.ReadAll(k, off, n, LastBlock(fs, fs.Vol().inodes[k].size, off, n));
      ReadHappens(v, own, dirs, fs.Vol(), k, off, n, r);
      ev := ReadOut(k, off, n, r);
    case NewNode(d, name, kind) =>
      InDirs(v, dirs, d);
      var r := fs.NewNode(d, name, kind);
      if r.None? {
        FullHappens(v, dirs);
        ev := NoInode;
      } else {
        InDirs(v, dirs, r.value);
        MakeHappens(v, dirs, fs.Vol(), d, name, kind, r.value);
        ev := Made(d, name, kind, r.value);
      }
    case Link(d, name, node) =>
      InDirs(v, dirs, d);
      fs.LinkNode(d, name, node);
      LinkHappens(v, dirs, fs.Vol(), d, name, node);
      ev := Linked(d, name, node);
    case Find(d, name) =>
      InDirs(v, dirs, d);
      var r := fs.FindNode(d, name);
      FindHappens(v, own, dirs, fs.Vol(), d, name);
      ev := Found(d, name, r);
  }

  /** Any schedule; an operation that the volume has no room for ends the run. */
  method Run(fs: BobFS, schedule: seq<Op>) returns (done: nat, ghost trace: seq<Event>)
    requires fs.ValidTree()
    modifies fs`own, fs`dirs, fs.device.disk
    ensures fs.ValidTree() && done <= |schedule| && |trace| == done && Runs(old(Now(fs)), trace, Now(fs))
    ensures forall i :: 0 <= i < done ==> Answers(schedule[i], trace[i])
    ensures done < |schedule| ==> !Allowed(fs, schedule[done])
  {
    hide Ok, Tree, Happens, Held, Decode, Answers, Enough;
    done, trace := 0, [];
    while done < |schedule|
      invariant fs.ValidTree() && done <= |schedule| && |trace| == done && Runs(old(Now(fs)), trace, Now(fs))
      invariant forall i :: 0 <= i < done ==> Answers(schedule[i], trace[i])
    {
      if !Allowed(fs, schedule[done]) {
        return;
      }
      ghost var mid := Now(fs);
      ghost var ev := Perform(fs, schedule[done]);
      RunsSnoc(old(Now(fs)), trace, mid, ev, Now(fs));
      done, trace := done + 1, trace + [ev];
    }
  }
}
