/**
  Directories of BobFS: files that hold (inumber, length, name) records one after another
  (kernel/bobfs.cc, linkNode and findNode), and the link counts they imply.
*/
module Directories {
  import opened IdeDisk
  import opened Options
  import opened Tallies
  import opened Volume
  import opened VolumeLayout

  datatype DirEntry = DirEntry(inumber: Word32, name: seq<Byte>)

  /** Names come from C strings. */
  predicate Nameable(name: seq<Byte>) {
    |name| < 0x1_0000_0000 && forall i :: 0 <= i < |name| ==> name[i] != 0
  }

  function Record(e: DirEntry): (b: seq<Byte>)
    requires Nameable(e.name)
    ensures |b| == 8 + |e.name|
  {
    Bytes(e.inumber) + Bytes(|e.name|) + e.name
  }

  /** A record is the inumber, the length of the name, and the name. */
  lemma RecordBytes(e: DirEntry)
    requires Nameable(e.name)
    ensures var b := Record(e);
      LowFirst(b[0..4]) == e.inumber && LowFirst(b[4..8]) == |e.name| && b[8..] == e.name
  {
    hide LowFirst;
    var b := Record(e);
    RecordReads(e, []);
    assert b + [] == b;
    WordLowFirst(b, 0);
    WordLowFirst(b, 4);
  }

  predicate Names(es: seq<DirEntry>) { forall i :: 0 <= i < |es| ==> Nameable(es[i].name) }

  function Encode(es: seq<DirEntry>): seq<Byte>
    requires Names(es)
    decreases |es|
  {
    if es == [] then [] else Encode(es[..|es| - 1]) + Record(es[|es| - 1])
  }

  /** Reads records from the front. */
  function Parse(b: seq<Byte>): Option<seq<DirEntry>>
    decreases |b|
  {
    if b == [] then Some([])
    else if |b| < 8 || |b| < 8 + Word(b, 4) then None
    else
      var n := Word(b, 4);
      match Parse(b[8 + n..])
      case None => None
      case Some(es) => Some([DirEntry(Word(b, 0), b[8..8 + n])] + es)
  }

  lemma RecordReads(e: DirEntry, rest: seq<Byte>)
    requires Nameable(e.name)
    ensures var b := Record(e) + rest;
      Word(b, 0) == e.inumber && Word(b, 4) == |e.name| && b[8..8 + |e.name|] == e.name && b[8 + |e.name|..] == rest
  {
    var b, l := Record(e) + rest, Bytes(|e.name|);
    assert b[0..4] == Bytes(e.inumber) && b[4..8] == l;
    assert forall k :: 0 <= k < 4 ==> b[k] == Bytes(e.inumber)[k];
    assert forall k :: 0 <= k < 4 ==> b[0..4][k] == b[k];
    assert b[4] == l[0] && b[5] == l[1] && b[6] == l[2] && b[7] == l[3];
    assert Word(b, 0) == Word(Bytes(e.inumber), 0);
    assert Word(b, 4) == Word(l, 0);
  }

  lemma Joined(a: seq<Byte>, b: seq<Byte>, c: seq<Byte>)
    ensures (a + b) + c == a + (b + c)
  {
  }

  lemma {:induction false} EncodeFront(es: seq<DirEntry>)
    requires Names(es) && es != []
    ensures Encode(es) == Record(es[0]) + Encode(es[1..])
    decreases |es|
  {
    hide Record;
    if |es| == 1 {
      assert Encode(es[..0]) == [] && Encode(es[1..]) == [];
    } else {
      var front, last, rest := es[..|es| - 1], es[|es| - 1], es[1..];
      EncodeFront(front);
      assert front[1..] == rest[..|rest| - 1] && rest[|rest| - 1] == last;
      assert Encode(rest) == Encode(front[1..]) + Record(last);
      assert Encode(es) == (Record(es[0]) + Encode(front[1..])) + Record(last);
      Joined(Record(es[0]), Encode(front[1..]), Record(last));
    }
  }

  lemma ParseRecord(e: DirEntry, rest: seq<Byte>, es: seq<DirEntry>)
    requires Nameable(e.name) && Parse(rest) == Some(es)
    ensures Parse(Record(e) + rest) == Some([e] + es)
  {
    hide Record, Word;
    RecordReads(e, rest);
  }

  /** What was written as a directory reads back as the same entries. */
  lemma {:induction false} RoundTrip(es: seq<DirEntry>)
    requires Names(es)
    ensures Parse(Encode(es)) == Some(es)
    decreases |es|
  {
    hide Record, Word;
    if es != [] {
      EncodeFront(es);
      RoundTrip(es[1..]);
      ParseRecord(es[0], Encode(es[1..]), es[1..]);
      assert es == [es[0]] + es[1..];
    }
  }

  lemma EncodeAppend(es: seq<DirEntry>, e: DirEntry)
    requires Names(es) && Nameable(e.name)
    ensures Encode(es + [e]) == Encode(es) + Record(e)
  {
    assert (es + [e])[..|es|] == es;
  }

  /** A directory is its first i records, the next one, and the others. */
  lemma {:induction false} EncodeSplit(es: seq<DirEntry>, i: nat)
    requires Names(es) && i <= |es|
    ensures Encode(es) == Encode(es[..i]) + Encode(es[i..])
    decreases |es|
  {
    hide Record;
    if i == |es| {
      assert es[..i] == es && es[i..] == [];
    } else {
      var front, last, back := es[..|es| - 1], es[|es| - 1], es[i..];
      EncodeSplit(front, i);
      assert front[..i] == es[..i] && back[..|back| - 1] == front[i..] && back[|back| - 1] == last;
      assert Encode(es) == Encode(front) + Record(last) && Encode(back) == Encode(front[i..]) + Record(last);
      Joined(Encode(es[..i]), Encode(front[i..]), Record(last));
    }
  }

  /** Where findNode finds record i, and how it reads. */
  lemma RecordAt(es: seq<DirEntry>, i: nat)
    requires Names(es) && i < |es|
    ensures var b, o, e := Encode(es), |Encode(es[..i])|, es[i];
      && o + 8 + |e.name| <= |b| && Word(b, o) == e.inumber && Word(b, o + 4) == |e.name|
      && b[o + 8..o + 8 + |e.name|] == e.name
      && |Encode(es[..i + 1])| == o + 8 + |e.name|
  {
    hide Record, Word;
    var b, p, e := Encode(es), Encode(es[..i]), es[i];
    EncodeSplit(es, i);
    EncodeFront(es[i..]);
    var rest := Encode(es[i..][1..]);
    RecordReads(e, rest);
    Shifted(p, Record(e) + rest, 0, |e.name|);
    assert es[..i + 1][..i] == es[..i];
  }

  /** Reading behind a prefix */
  lemma Shifted(p: seq<Byte>, t: seq<Byte>, i: nat, n: nat)
    requires i + 8 + n <= |t|
    ensures Word(p + t, |p| + i) == Word(t, i) && Word(p + t, |p| + i + 4) == Word(t, i + 4)
    ensures (p + t)[|p| + i + 8..|p| + i + 8 + n] == t[i + 8..i + 8 + n]
  {
    assert forall x :: 0 <= x < |t| ==> (p + t)[|p| + x] == t[x];
  }

  /** The inumber of the first entry of that name */
  function First(es: seq<DirEntry>, name: seq<Byte>): Option<Word32> {
    if es == [] then None else if es[0].name == name then Some(es[0].inumber) else First(es[1..], name)
  }

  lemma {:induction false} FirstIs(es: seq<DirEntry>, name: seq<Byte>, i: nat)
    requires i <= |es| && forall j :: 0 <= j < i ==> es[j].name != name
    ensures i < |es| && es[i].name == name ==> First(es, name) == Some(es[i].inumber)
    ensures i == |es| ==> First(es, name) == None
    decreases |es|
  {
    if es != [] && i > 0 {
      FirstIs(es[1..], name, i - 1);
    }
  }

  // ---- links

  type Dirs = map<nat, seq<DirEntry>>

  function Naming(es: seq<DirEntry>, k: nat): nat
    decreases |es|
  {
    if es == [] then 0 else Naming(es[..|es| - 1], k) + (if es[|es| - 1].inumber == k then 1 else 0)
  }

  lemma NamingAppend(es: seq<DirEntry>, e: DirEntry, k: nat)
    ensures Naming(es + [e], k) == Naming(es, k) + (if e.inumber == k then 1 else 0)
  {
    assert (es + [e])[..|es|] == es;
  }

  /** For each inode, the entries in it that name inode k */
  function NamingIn(dirs: Dirs, k: nat): (w: seq<nat>)
    ensures |w| == COUNT && forall d :: 0 <= d < COUNT ==> w[d] == if d in dirs then Naming(dirs[d], k) else 0
  {
    seq(COUNT, (d: nat) => if d in dirs then Naming(dirs[d], k) else 0)
  }

  /** The entries of all directories that name inode k */
  function Entries(dirs: Dirs, k: nat): nat { Total(NamingIn(dirs, k)) }

  lemma EntriesAppend(dirs: Dirs, d: nat, e: DirEntry, k: nat)
    requires d in dirs && d < COUNT
    ensures Entries(dirs[d := dirs[d] + [e]], k) == Entries(dirs, k) + (if e.inumber == k then 1 else 0)
  {
    hide Naming, Total;
    NamingAppend(dirs[d], e, k);
    var es := dirs[d] + [e];
    var w, w' := NamingIn(dirs, k), NamingIn(dirs[d := es], k);
    TotalSet(w, d, Naming(es, k));
    forall j | 0 <= j < COUNT ensures w'[j] == w[d := Naming(es, k)][j] {
    }
    assert w' == w[d := Naming(es, k)];
  }

  lemma EntriesNew(dirs: Dirs, d: nat, k: nat)
    requires d !in dirs
    ensures Entries(dirs[d := []], k) == Entries(dirs, k)
  {
    assert NamingIn(dirs[d := []], k) == NamingIn(dirs, k);
  }

  /** Every entry names an inode in use. */
  ghost predicate Closed(dirs: Dirs, used: seq<bool>) {
    forall d, i :: d in dirs && 0 <= i < |dirs[d]| ==> dirs[d][i].inumber < |used| && used[dirs[d][i].inumber]
  }

  lemma {:induction false} NamingNone(es: seq<DirEntry>, k: nat)
    requires forall i :: 0 <= i < |es| ==> es[i].inumber != k
    ensures Naming(es, k) == 0
    decreases |es|
  {
    if es != [] { NamingNone(es[..|es| - 1], k); }
  }

  lemma EntriesUnused(dirs: Dirs, used: seq<bool>, k: nat)
    requires Closed(dirs, used) && k < |used| && !used[k]
    ensures Entries(dirs, k) == 0
  {
    forall d | 0 <= d < COUNT ensures NamingIn(dirs, k)[d] == 0 {
      if d in dirs { NamingNone(dirs[d], k); }
    }
    if Entries(dirs, k) > 0 {
      var d := TotalSome(NamingIn(dirs, k));
    }
  }

  const DIR_TYPE: nat := 1
  const FILE_TYPE: nat := 2

  /** The directories of a volume hold `dirs`, and links count the entries (one more for the root), modulo 2^16. */
  ghost predicate Tree(v: Vol, dirs: Dirs)
    requires Sized(v)
  {
    && (forall k :: k in dirs ==> k < COUNT && v.used[k] && v.inodes[k].kind == DIR_TYPE)
    && (forall k :: 0 <= k < COUNT && v.used[k] && v.inodes[k].kind == DIR_TYPE ==> k in dirs)
    && (forall k :: k in dirs ==> Names(dirs[k]) && File(v, k) == Encode(dirs[k]))
    && Closed(dirs, v.used)
    && v.root in dirs
    && Counted(v.inodes, v.used, v.root, dirs)
  }

  ghost predicate Counted(inodes: seq<Inode>, used: seq<bool>, root: nat, dirs: Dirs)
    requires |inodes| == |used| == COUNT
  {
    forall k :: 0 <= k < COUNT && used[k] ==>
      inodes[k].links == (Entries(dirs, k) + (if k == root then 1 else 0)) % 0x1_0000
  }

  // ---- the steps

  /** Nothing that a reader or a writer of other files does matters. */
  lemma TreeQuiet(v: Vol, v': Vol, dirs: Dirs)
    requires Quiet(v, v') && Tree(v, dirs) && Files(v)
    ensures Tree(v', dirs)
  {
    hide File, ByteAt, Encode, Entries;
    forall k | 0 <= k < COUNT && v.used[k] ensures SameMeta(v.inodes[k], v'.inodes[k]) && File(v', k) == File(v, k) {
      assert SameFile(v, v', k);
      QuietFile(v, v', k);
    }
  }

  lemma TreeWrite(v: Vol, v': Vol, dirs: Dirs, k: nat, off: nat, c: seq<Byte>)
    requires Rewrote(v, v', k, off, c) && Tree(v, dirs) && Files(v) && k !in dirs && v.used[k]
    ensures Tree(v', dirs)
  {
    hide File, ByteAt, Encode, Entries, Overwrite;
    forall j | 0 <= j < COUNT && v.used[j] && j != k
      ensures SameMeta(v.inodes[j], v'.inodes[j]) && File(v', j) == File(v, j)
    {
      SameBytes(v, v', j);
    }
  }

  /** linkNode: the link count of `node` and one more record at the end of directory d. */
  lemma TreeLink(v: Vol, own: Owners, v2: Vol, dirs: Dirs, d: nat, node: nat, e: DirEntry)
    requires Ok(v, own) && Tree(v, dirs) && d in dirs && node < COUNT && v.used[node] && e.inumber == node
    requires Nameable(e.name)
    requires var v1 := WithLinks(v, node, (v.inodes[node].links + 1) % 0x1_0000);
      Rewrote(v1, v2, d, v.inodes[d].size, Record(e))
    ensures Tree(v2, dirs[d := dirs[d] + [e]])
  {
    hide File, ByteAt, Encode, Record, Counted, Owned, Files, Overwrite, WithLinks;
    var v1 := WithLinks(v, node, (v.inodes[node].links + 1) % 0x1_0000);
    LinksKeep(v, own, node, (v.inodes[node].links + 1) % 0x1_0000);
    OnlyLinks(v, node, (v.inodes[node].links + 1) % 0x1_0000);
    Appended(File(v, d), Record(e));
    FileLength(v, d);
    EncodeAppend(dirs[d], e);
    forall k | 0 <= k < COUNT && v.used[k] && k != d
      ensures SameMeta(v1.inodes[k], v2.inodes[k]) && File(v2, k) == File(v, k)
    {
      SizeOf(v, own, k);
      SameBytes(v1, v2, k);
    }
    LinkCounts(v, v2, dirs, d, node, e);
  }

  lemma SizeOf(v: Vol, own: Owners, k: nat)
    requires Ok(v, own) && k < COUNT && v.used[k]
    ensures v.inodes[k].size <= SPAN
  {
  }

  lemma OnlyLinks(v: Vol, k: nat, links: Word16)
    requires Sized(v) && k < COUNT
    ensures var v' := WithLinks(v, k, links);
      && v'.root == v.root && v'.used == v.used
      && forall j :: 0 <= j < COUNT ==> v'.inodes[j] == if j == k then v.inodes[k].(links := links) else v.inodes[j]
  {
  }

  lemma LinkCounts(v: Vol, v2: Vol, dirs: Dirs, d: nat, node: nat, e: DirEntry)
    requires Sized(v) && Sized(v2) && v2.used == v.used && v2.root == v.root
    requires d in dirs && d < COUNT && node < COUNT && v.used[node] && e.inumber == node
    requires Counted(v.inodes, v.used, v.root, dirs)
    requires forall k :: 0 <= k < COUNT && v.used[k] ==>
      v2.inodes[k].links == if k == node then (v.inodes[k].links + 1) % 0x1_0000 else v.inodes[k].links
    ensures Counted(v2.inodes, v2.used, v2.root, dirs[d := dirs[d] + [e]])
  {
    hide Entries;
    forall k | 0 <= k < COUNT && v.used[k] ensures v2.inodes[k].links
      == (Entries(dirs[d := dirs[d] + [e]], k) + (if k == v2.root then 1 else 0)) % 0x1_0000
    {
      EntriesAppend(dirs, d, e, k);
      if k == node {
        OneMore(Entries(dirs, k) + (if k == v.root then 1 else 0));
      }
    }
  }

  lemma OneMore(n: nat)
    ensures (n % 0x1_0000 + 1) % 0x1_0000 == (n + 1) % 0x1_0000
  {
  }

  lemma FileLength(v: Vol, k: nat)
    requires Sized(v) && k < COUNT
    ensures |File(v, k)| == v.inodes[k].size
  {
  }

  lemma Appended(f: seq<Byte>, c: seq<Byte>)
    ensures Overwrite(f, |f|, c) == f + c
  {
  }

  lemma TreeCreate(v: Vol, own: Owners, dirs: Dirs, k: nat, kind: Word16)
    requires Ok(v, own) && Tree(v, dirs) && k < COUNT && !v.used[k]
    ensures Tree(Created(v, k, kind), if kind == DIR_TYPE then dirs[k := []] else dirs)
  {
    hide File, ByteAt, Encode, Entries, Owned;
    var v', dirs' := Created(v, k, kind), if kind == DIR_TYPE then dirs[k := []] else dirs;
    CreateKeeps(v, own, k, kind);
    assert k !in dirs;
    forall j | 0 <= j < COUNT && v.used[j] ensures SameMeta(v.inodes[j], v'.inodes[j]) && File(v', j) == File(v, j) {
      SameBytes(v, v', j);
    }
    forall j | 0 <= j < COUNT ensures Entries(dirs', j) == Entries(dirs, j) {
      if kind == DIR_TYPE { EntriesNew(dirs, k, j); }
    }
    EntriesUnused(dirs, v.used, k);
    EncodeNone();
  }

  lemma EncodeNone()
    ensures Encode([]) == []
  {
  }

  lemma TreeBlank(v: Vol, root: nat)
    requires Sized(v) && root < COUNT
    ensures Tree(Blank(v, root), map[root := []])
  {
    hide ByteAt, Entries;
    EncodeNone();
    forall k | 0 <= k < COUNT ensures Entries(map[root := []], k) == 0 {
      EntriesNew(map[], root, k);
      EntriesUnused(map[], seq(COUNT, _ => false), k);
    }
  }

  /** A name that was not there is found as what newNode linked; one that was, as before. */
  lemma {:induction false} FirstAppend(es: seq<DirEntry>, e: DirEntry, name: seq<Byte>)
    ensures First(es + [e], name) ==
      if First(es, name).Some? then First(es, name) else if e.name == name then Some(e.inumber) else None
    decreases |es|
  {
    if es == [] {
      assert (es + [e])[1..] == [];
    } else {
      FirstAppend(es[1..], e, name);
      assert (es + [e])[1..] == es[1..] + [e];
    }
  }
}
