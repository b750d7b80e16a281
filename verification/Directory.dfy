/** dirlookup, dirlink and namex of kernel/fs.c, on top of readi and writei. */
module Directory {
  import opened Common
  import opened Volume
  import opened Fs
  import opened Path
  import opened Space

  const DIRENT := 16
  const USHORT_LIMIT := 65536
  const ROOTINO := 1

  /** A string: bytes other than NUL. */
  ghost predicate IsString(s: Bytes) {
    forall i :: 0 <= i < |s| ==> 0 < s[i] < 256
  }

  // ---- Names in entries ----

  /** A name field up to its first NUL. */
  function Upto(field: Bytes): Bytes {
    if field == [] || field[0] == 0 then [] else [field[0]] + Upto(field[1..])
  }

  lemma {:induction false} UptoIs(field: Bytes, i: nat)
    requires i <= |field| && (forall k :: 0 <= k < i ==> field[k] != 0) && (i < |field| ==> field[i] == 0)
    ensures Upto(field) == field[..i]
    decreases i
  {
    if i > 0 {
      UptoIs(field[1..], i - 1);
      assert field[..i] == [field[0]] + field[1..][..i - 1];
    }
  }

  lemma {:induction false} UptoLonger(field: Bytes, i: nat)
    requires i < |field| && forall k :: 0 <= k <= i ==> field[k] != 0
    ensures |Upto(field)| > i && Upto(field)[i] == field[i]
    decreases i
  {
    if i > 0 {
      UptoLonger(field[1..], i - 1);
    }
  }

  /** strncpy: the name, cut or padded with NULs. */
  function Padded(name: Bytes): (r: Bytes)
    ensures |r| == DIRSIZ
  {
    seq(DIRSIZ, i requires 0 <= i => if i < |name| then name[i] else 0)
  }

  lemma PaddedKey(name: Bytes)
    requires IsString(name)
    ensures Upto(Padded(name)) == Key(name) && AllBytes(Padded(name))
  {
    var n := if |name| < DIRSIZ then |name| else DIRSIZ;
    UptoIs(Padded(name), n);
    assert Padded(name)[..n] == Key(name);
  }

  ghost predicate NoNul(field: Bytes, k: nat)
    requires k <= |field|
  {
    forall j :: 0 <= j < k ==> field[j] != 0
  }

  /** A byte of a string, or of the NUL behind it. */
  function ByteAt(name: Bytes, k: nat): int {
    if k < |name| then name[k] else 0
  }

  /** namecmp: at most DIRSIZ bytes are compared. */
  method Namecmp(name: Bytes, field: Bytes) returns (same: bool)
    requires IsString(name) && |field| == DIRSIZ
    ensures same <==> Key(name) == Upto(field)
    ensures same <==> forall k :: 0 <= k < DIRSIZ && NoNul(field, k) ==> ByteAt(name, k) == field[k]
  {
    var i := 0;
    while i < DIRSIZ && i < |name| && name[i] == field[i]
      invariant 0 <= i <= DIRSIZ && i <= |name| && name[..i] == field[..i]
      invariant forall k :: 0 <= k < i ==> field[k] != 0
    {
      i := i + 1;
    }
    if i == DIRSIZ {
      UptoIs(field, DIRSIZ);
      return true;
    }
    same := (if i < |name| then name[i] else 0) == field[i];
    assert NoNul(field, i);
    assert i == |name| ==> forall k :: i < k < DIRSIZ && NoNul(field, k) ==> field[i] != 0;
    if field[i] == 0 {
      UptoIs(field, i);
    } else {
      UptoLonger(field, i);
    }
  }

  // ---- A directory as a map from names to inode numbers ----

  function Inum(f: Bytes, i: nat): int
    requires DIRENT * i + DIRENT <= |f|
  {
    f[DIRENT * i] + 256 * f[DIRENT * i + 1]
  }

  function Field(f: Bytes, i: nat): (r: Bytes)
    requires DIRENT * i + DIRENT <= |f|
    ensures |r| == DIRSIZ
  {
    f[DIRENT * i + 2..DIRENT * i + DIRENT]
  }

  /** Entry `i` is in use, for the name `key`. */
  predicate Live(f: Bytes, i: nat, key: Bytes) {
    DIRENT * i + DIRENT <= |f| && Inum(f, i) != 0 && Upto(Field(f, i)) == key
  }

  ghost predicate IsFirst(f: Bytes, i: nat, key: Bytes) {
    Live(f, i, key) && forall j: nat :: j < i ==> !Live(f, j, key)
  }

  /** The inode number that the first entry for `key` from entry `i` on gives; 0 if there is none. */
  function Target(f: Bytes, key: Bytes, i: nat): int
    decreases |f| - DIRENT * i
  {
    if DIRENT * i + DIRENT > |f| then 0
    else if Live(f, i, key) then Inum(f, i)
    else Target(f, key, i + 1)
  }

  /** No name has two entries. */
  ghost predicate OneEach(f: Bytes) {
    forall i: nat, j: nat, key :: Live(f, i, key) && Live(f, j, key) ==> i == j
  }

  lemma {:induction false} NoTarget(f: Bytes, key: Bytes, i: nat)
    ensures Target(f, key, i) == 0 <==> forall j: nat :: i <= j ==> !Live(f, j, key)
    decreases |f| - DIRENT * i
  {
    if DIRENT * i + DIRENT <= |f| && !Live(f, i, key) {
      NoTarget(f, key, i + 1);
    }
  }

  function Dirent(inum: nat, name: Bytes): (r: Bytes)
    ensures |r| == DIRENT
  {
    [inum % 256, inum / 256 % 256] + Padded(name)
  }

  /** What dirlink writes at entry `s`, the first unused one or the one behind the last. */
  lemma DirentRead(f: Bytes, s: nat, inum: nat, name: Bytes, i: nat)
    requires IsString(name) && DIRENT * s <= |f| && |f| % DIRENT == 0
    ensures var f' := Overwritten(f, DIRENT * s, Dirent(inum, name));
            && |f'| % DIRENT == 0 && |f'| == (if DIRENT * s == |f| then |f| + DIRENT else |f|)
            && (i == s ==>
                  DIRENT * i + DIRENT <= |f'| && Inum(f', i) == inum % USHORT_LIMIT && Upto(Field(f', i)) == Key(name))
            && (i != s ==> (DIRENT * i + DIRENT <= |f'| <==> DIRENT * i + DIRENT <= |f|))
            && (i != s && DIRENT * i + DIRENT <= |f| ==> Inum(f', i) == Inum(f, i) && Field(f', i) == Field(f, i))
  {
    hide Dirent, Upto, Key, Inum, Field;
    Multiple(|f|, s);
    if i == s {
      EntryWritten(f, s, inum, name);
    } else if DIRENT * i + DIRENT <= |f| {
      EntryKept(f, s, Dirent(inum, name), i);
    }
  }

  lemma EntryWritten(f: Bytes, s: nat, inum: nat, name: Bytes)
    requires IsString(name) && DIRENT * s <= |f|
    ensures var f' := Overwritten(f, DIRENT * s, Dirent(inum, name));
            && DIRENT * s + DIRENT <= |f'| && Inum(f', s) == inum % USHORT_LIMIT && Upto(Field(f', s)) == Key(name)
  {
    hide Upto, Padded, Key;
    PaddedKey(name);
    var o, d := DIRENT * s, Dirent(inum, name);
    var f' := Overwritten(f, o, d);
    assert f'[o] == d[0] && f'[o + 1] == d[1];
    assert f'[o + 2..o + DIRENT] == d[2..] == Padded(name);
    assert inum % USHORT_LIMIT == inum % 256 + 256 * (inum / 256 % 256);
  }

  lemma EntryKept(f: Bytes, s: nat, d: Bytes, i: nat)
    requires DIRENT * s <= |f| && |d| == DIRENT && i != s && DIRENT * i + DIRENT <= |f|
    ensures var f' := Overwritten(f, DIRENT * s, d);
            DIRENT * i + DIRENT <= |f'| && Inum(f', i) == Inum(f, i) && Field(f', i) == Field(f, i)
  {
    var f', o, p := Overwritten(f, DIRENT * s, d), DIRENT * i, DIRENT * s;
    assert o + DIRENT <= p || p + DIRENT <= o;
    forall k | o <= k < o + DIRENT ensures f'[k] == f[k] {
    }
    assert f'[o + 2..o + DIRENT] == f[o + 2..o + DIRENT];
  }

  lemma Multiple(n: nat, s: nat)
    requires n % DIRENT == 0 && DIRENT * s <= n
    ensures DIRENT * s == n || DIRENT * s + DIRENT <= n
  {
  }

  /** The directory after dirlink wrote: the new name has its inode number, every other name what it had, and no
      name has two entries. */
  ghost predicate LinkedDir(f: Bytes, f': Bytes, key: Bytes, inum: int) {
    && |f'| % DIRENT == 0
    && (forall k :: Target(f', k, 0) == if k == key && inum != 0 then inum else Target(f, k, 0))
    && (OneEach(f) ==> OneEach(f'))
  }

  lemma LinkedNow(f: Bytes, s: nat, inum: nat, name: Bytes)
    requires IsString(name) && DIRENT * s <= |f| && |f| % DIRENT == 0
    requires DIRENT * s + DIRENT <= |f| ==> Inum(f, s) == 0
    requires Target(f, Key(name), 0) == 0
    ensures LinkedDir(f, Overwritten(f, DIRENT * s, Dirent(inum, name)), Key(name), inum % USHORT_LIMIT)
  {
    hide Upto, Overwritten, Dirent, Key, Target, Inum, Field;
    var f', key, n := Overwritten(f, DIRENT * s, Dirent(inum, name)), Key(name), inum % USHORT_LIMIT;
    NoTarget(f, key, 0);
    forall i: nat, k ensures Live(f', i, k) <==> Live(f, i, k) || (i == s && n != 0 && k == key) {
      DirentRead(f, s, inum, name, i);
    }
    forall i: nat | i != s && DIRENT * i + DIRENT <= |f|
      ensures DIRENT * i + DIRENT <= |f'| && Inum(f', i) == Inum(f, i)
    {
      DirentRead(f, s, inum, name, i);
    }
    DirentRead(f, s, inum, name, s);
    forall k ensures Target(f', k, 0) == if k == key && n != 0 then n else Target(f, k, 0) {
      TargetAfter(f, f', s, k, key, n, 0);
    }
  }

  /** The new name stands for the given inode number if and only if that fits into 16 bits. */
  lemma ResolvesIff(f: Bytes, s: nat, inum: nat, name: Bytes)
    requires IsString(name) && DIRENT * s <= |f| && |f| % DIRENT == 0 && inum > 0
    requires DIRENT * s + DIRENT <= |f| ==> Inum(f, s) == 0
    requires Target(f, Key(name), 0) == 0
    ensures Target(Overwritten(f, DIRENT * s, Dirent(inum, name)), Key(name), 0) == inum <==> inum < USHORT_LIMIT
  {
    hide Target, Overwritten, Dirent, Key, OneEach;
    LinkedNow(f, s, inum, name);
  }

  /** Inode 65536 linked into an empty directory: the name is not there. */
  lemma LinkLost(name: Bytes)
    requires IsString(name)
    ensures Target(Overwritten([], 0, Dirent(USHORT_LIMIT, name)), Key(name), 0) == 0
  {
    hide Target, Overwritten, Dirent, Key, OneEach;
    assert Target([], Key(name), 0) == 0 by { NoTarget([], Key(name), 0); }
    LinkedNow([], 0, USHORT_LIMIT, name);
  }

  lemma {:induction false} TargetAfter(f: Bytes, f': Bytes, s: nat, k: Bytes, key: Bytes, n: int, i: nat)
    requires |f| <= |f'| && DIRENT * s + DIRENT <= |f'| && Inum(f', s) == n
    requires forall j: nat :: Live(f', j, k) <==> Live(f, j, k) || (j == s && n != 0 && k == key)
    requires forall j: nat :: j != s && DIRENT * j + DIRENT <= |f| ==> Inum(f', j) == Inum(f, j)
    requires (forall j: nat :: !Live(f, j, key)) && forall x :: !Live(f, s, x)
    ensures Target(f', k, i) == if k == key && n != 0 && i <= s then n else Target(f, k, i)
    decreases |f'| - DIRENT * i
  {
    NoTarget(f, k, i);
    NoTarget(f', k, i);
    if DIRENT * i + DIRENT <= |f'| && !Live(f', i, k) {
      TargetAfter(f, f', s, k, key, n, i + 1);
    }
  }

  /** The directories of a volume: each has whole entries, and these name inodes. */
  ghost predicate TreeOk(g: Geometry, v: Vol, dirs: set<nat>) {
    Shaped(g, v) && forall x :: x in dirs ==>
      && x < |v.inodes| && Mapped(g, v, x) && v.inodes[x].size % DIRENT == 0
      && forall key :: 0 <= Target(File(g, v, x), key, 0) < |v.inodes|
  }

  /** The other files. */
  ghost predicate OthersSame(g: Geometry, v: Vol, v': Vol, x: nat) {
    && Shaped(g, v) && Shaped(g, v') && |v'.inodes| == |v.inodes|
    && forall y :: 0 <= y < |v.inodes| && y != x && Mapped(g, v, y) ==>
         Mapped(g, v', y) && File(g, v', y) == File(g, v, y)
  }

  lemma WroteOthers(g: Geometry, v: Vol, v': Vol, x: nat, off: nat, data: Bytes, end: int)
    requires Shaped(g, v) && Shaped(g, v') && AllMapped(g, v') && Wrote(g, v, v', x, off, data) && Grown(v, v', x, end)
    ensures OthersSame(g, v, v', x)
  {
    forall y | 0 <= y < |v.inodes| && y != x && Mapped(g, v, y)
      ensures Mapped(g, v', y) && File(g, v', y) == File(g, v, y)
    {
      assert Mapped(g, v', y) && v'.inodes[y].size == v.inodes[y].size;
      forall k | 0 <= k < v.inodes[y].size ensures File(g, v', y)[k] == File(g, v, y)[k] {
        assert File(g, v', y)[k] == FileByte(g, v', y, k) && File(g, v, y)[k] == FileByte(g, v, y, k);
      }
    }
  }

  /** A new name for an inode keeps the directories in order. */
  lemma TreeKept(g: Geometry, v: Vol, v': Vol, dirs: set<nat>, x: nat, key: Bytes, inum: int)
    requires TreeOk(g, v, dirs) && x in dirs && OthersSame(g, v, v', x) && 0 <= inum < |v.inodes|
    requires Mapped(g, v', x) && LinkedDir(File(g, v, x), File(g, v', x), key, inum)
    ensures TreeOk(g, v', dirs)
  {
    forall y | y in dirs
      ensures y < |v'.inodes| && Mapped(g, v', y) && v'.inodes[y].size % DIRENT == 0
              && forall k :: 0 <= Target(File(g, v', y), k, 0) < |v'.inodes|
    {
      assert |File(g, v', y)| == v'.inodes[y].size && |File(g, v, y)| == v.inodes[y].size;
    }
  }

  lemma InOrder(fs: FileSystem, x: nat)
    requires fs.Valid() && x < |fs.v.inodes|
    ensures Shaped(fs.g, fs.v) && Mapped(fs.g, fs.v, x) && 0 <= fs.v.inodes[x].size <= MAXFILE * BSIZE
  {
  }

  /** dirlookup: the inode number, and the offset of its entry. */
  method Dirlookup(fs: FileSystem, x: nat, name: Bytes) returns (inum: int, off: nat)
    requires fs.Valid() && x < |fs.v.inodes| && fs.v.inodes[x].size % DIRENT == 0 && IsString(name)
    modifies fs
    ensures fs.Valid() && fs.Unchanged(old(fs.v), old(fs.owner), old(fs.logged), old(fs.peak))
    ensures fs.dinodes == old(fs.dinodes) && fs.start == old(fs.start) && fs.stray == old(fs.stray)
    ensures Mapped(fs.g, fs.v, x) && inum == Target(File(fs.g, fs.v, x), Key(name), 0)
    ensures inum != 0 ==> off % DIRENT == 0 && IsFirst(File(fs.g, fs.v, x), off / DIRENT, Key(name))
                          && inum == Inum(File(fs.g, fs.v, x), off / DIRENT)
    ensures inum == 0 ==> forall j: nat :: !Live(File(fs.g, fs.v, x), j, Key(name))
  {
    hide FileSystem.Valid, File, Shaped, Mapped, Upto, IsString, Key;
    ghost var g, v := fs.g, fs.v;
    InOrder(fs, x);
    ghost var f := File(g, v, x);
    off := 0;
    ghost var i := 0;
    while off < fs.v.inodes[x].size
      invariant fs.Valid() && fs.Unchanged(v, old(fs.owner), old(fs.logged), old(fs.peak))
      invariant fs.dinodes == old(fs.dinodes) && fs.start == old(fs.start) && fs.stray == old(fs.stray)
      invariant off == DIRENT * i && off <= |f| && Target(f, Key(name), 0) == Target(f, Key(name), i)
      invariant forall j: nat :: j < i ==> !Live(f, j, Key(name))
      decreases |f| - off
    {
      Multiple(|f|, i);
      var de := ReadEntry(fs, x, off);
      var n := de[0] + 256 * de[1];
      assert n == Inum(f, i) && de[2..] == Field(f, i);
      if n != 0 {
        var same := Namecmp(name, de[2..]);
        if same {
          return n, off;
        }
      }
      off := off + DIRENT;
      i := i + 1;
    }
    inum := 0;
  }

  /** One entry; a short read, which would be a panic, does not happen. */
  method ReadEntry(fs: FileSystem, x: nat, off: nat) returns (de: Bytes)
    requires fs.Valid() && x < |fs.v.inodes| && off + DIRENT <= fs.v.inodes[x].size
    modifies fs
    ensures fs.Valid() && fs.Unchanged(old(fs.v), old(fs.owner), old(fs.logged), old(fs.peak))
    ensures fs.dinodes == old(fs.dinodes) && fs.start == old(fs.start) && fs.stray == old(fs.stray)
    ensures Mapped(fs.g, fs.v, x) && de == File(fs.g, fs.v, x)[off..off + DIRENT]
  {
    assert Mapped(fs.g, fs.v, x);
    var r;
    r, de := fs.Readi(x, off, DIRENT, DIRENT);
  }

  ghost predicate HasUnused(f: Bytes) {
    exists s: nat :: DIRENT * s + DIRENT <= |f| && Inum(f, s) == 0
  }

  /** There is a place for one more entry: an unused one, or one at the end that the disk has room for. */
  ghost predicate PlaceLeft(g: Geometry, v: Vol, x: nat)
    requires Shaped(g, v) && x < |v.inodes| && Mapped(g, v, x)
  {
    var size := v.inodes[x].size;
    HasUnused(File(g, v, x)) || (size + DIRENT <= MAXFILE * BSIZE && SpaceFor(g, v, x, size, DIRENT) == DIRENT)
  }

  /** dirlink: adds a name exactly if it is not there and there is a place for it; otherwise no name changes.
      An entry lies in one block, so it is never torn. */
  method Dirlink(fs: FileSystem, x: nat, name: Bytes, inum: nat) returns (ok: bool)
    requires fs.Valid() && x < |fs.v.inodes| && fs.v.inodes[x].size % DIRENT == 0 && IsString(name)
    modifies fs
    ensures fs.Valid() && |fs.v.inodes| == |old(fs.v).inodes| && Mapped(fs.g, old(fs.v), x) && Mapped(fs.g, fs.v, x)
    ensures ok <==> Target(File(fs.g, old(fs.v), x), Key(name), 0) == 0 && PlaceLeft(fs.g, old(fs.v), x)
    ensures ok ==> LinkedDir(File(fs.g, old(fs.v), x), File(fs.g, fs.v, x), Key(name), inum % USHORT_LIMIT)
    ensures ok ==> EntryAdded(File(fs.g, old(fs.v), x), File(fs.g, fs.v, x), name, inum)
    ensures !ok ==> File(fs.g, fs.v, x) == File(fs.g, old(fs.v), x)
    ensures OthersSame(fs.g, old(fs.v), fs.v, x) && fs.stray == old(fs.stray)
  {
    hide FileSystem.Valid, File, Shaped, Mapped, IsString, Key, LinkedDir, Target, PlaceLeft, SpaceFor;
    hide IsFirstUnused, Overwritten, Dirent;
    InOrder(fs, x);
    var found, at := Dirlookup(fs, x, name);
    if found != 0 {
      return false;
    }
    var s := FirstUnused(fs, x);
    PlaceThere(fs.g, fs.v, x, s);
    ok := WriteEntry(fs, x, s, name, inum);
  }

  /** The first unused entry, or the one behind the last, is the new one. */
  ghost predicate EntryAdded(f: Bytes, f': Bytes, name: Bytes, inum: nat) {
    exists s: nat :: IsFirstUnused(f, s) && f' == Overwritten(f, DIRENT * s, Dirent(inum, name))
  }

  /** Entry `s` is the first unused one, or the one behind the last. */
  ghost predicate IsFirstUnused(f: Bytes, s: nat) {
    && DIRENT * s <= |f| && (DIRENT * s + DIRENT <= |f| ==> Inum(f, s) == 0)
    && forall i: nat :: i < s ==> Inum(f, i) != 0
  }

  method FirstUnused(fs: FileSystem, x: nat) returns (s: nat)
    requires fs.Valid() && x < |fs.v.inodes| && fs.v.inodes[x].size % DIRENT == 0
    modifies fs
    ensures fs.Valid() && fs.Unchanged(old(fs.v), old(fs.owner), old(fs.logged), old(fs.peak))
    ensures fs.dinodes == old(fs.dinodes) && fs.start == old(fs.start) && fs.stray == old(fs.stray)
    ensures Mapped(fs.g, fs.v, x) && IsFirstUnused(File(fs.g, fs.v, x), s)
  {
    hide FileSystem.Valid, File, Shaped, Mapped;
    InOrder(fs, x);
    ghost var v, f := fs.v, File(fs.g, fs.v, x);
    s := 0;
    while DIRENT * s < fs.v.inodes[x].size
      invariant fs.Valid() && fs.Unchanged(v, old(fs.owner), old(fs.logged), old(fs.peak))
      invariant fs.dinodes == old(fs.dinodes) && fs.start == old(fs.start) && fs.stray == old(fs.stray)
      invariant DIRENT * s <= |f| && forall i: nat :: i < s ==> Inum(f, i) != 0
      decreases |f| - DIRENT * s
    {
      Multiple(|f|, s);
      var de := ReadEntry(fs, x, DIRENT * s);
      if de[0] + 256 * de[1] == 0 {
        break;
      }
      s := s + 1;
    }
  }

  lemma FirstUnusedIs(f: Bytes, s: nat)
    requires IsFirstUnused(f, s)
    ensures DIRENT * s <= |f| && (DIRENT * s + DIRENT <= |f| ==> Inum(f, s) == 0)
  {
  }

  /** There is a place exactly if there is room where dirlink writes. */
  lemma PlaceThere(g: Geometry, v: Vol, x: nat, s: nat)
    requires Shaped(g, v) && x < |v.inodes| && Mapped(g, v, x) && v.inodes[x].size % DIRENT == 0
    requires IsFirstUnused(File(g, v, x), s)
    ensures PlaceLeft(g, v, x) <==>
            DIRENT * s + DIRENT <= MAXFILE * BSIZE && SpaceFor(g, v, x, DIRENT * s, DIRENT) == DIRENT
  {
    hide File, SpaceFor;
    var f, size := File(g, v, x), v.inodes[x].size;
    Multiple(size, s);
    if DIRENT * s < size {
      assert HasUnused(f);
      UsedSpace(g, v, x, DIRENT * s);
    }
  }

  lemma UsedSpace(g: Geometry, v: Vol, x: nat, off: nat)
    requires Shaped(g, v) && x < |v.inodes| && Mapped(g, v, x) && off % DIRENT == 0 && off + DIRENT <= v.inodes[x].size
    ensures SpaceFor(g, v, x, off, DIRENT) == DIRENT
  {
    EntryInBlock(off);
    assert BlockOf(g, v, x, off / BSIZE) != 0;
    MappedSpace(g, v, x, off, DIRENT);
  }

  /** An entry ends before its block does. */
  lemma EntryInBlock(off: nat)
    requires off % DIRENT == 0
    ensures off % BSIZE + DIRENT <= BSIZE
  {
  }

  method WriteEntry(fs: FileSystem, x: nat, s: nat, name: Bytes, inum: nat) returns (ok: bool)
    requires fs.Valid() && x < |fs.v.inodes| && fs.v.inodes[x].size % DIRENT == 0 && IsString(name)
    requires Mapped(fs.g, fs.v, x) && IsFirstUnused(File(fs.g, fs.v, x), s)
    requires Target(File(fs.g, fs.v, x), Key(name), 0) == 0
    modifies fs
    ensures fs.Valid() && |fs.v.inodes| == |old(fs.v).inodes| && Mapped(fs.g, old(fs.v), x) && Mapped(fs.g, fs.v, x)
    ensures ok <==> DIRENT * s + DIRENT <= MAXFILE * BSIZE && SpaceFor(fs.g, old(fs.v), x, DIRENT * s, DIRENT) == DIRENT
    ensures ok ==> LinkedDir(File(fs.g, old(fs.v), x), File(fs.g, fs.v, x), Key(name), inum % USHORT_LIMIT)
    ensures ok ==> File(fs.g, fs.v, x) == Overwritten(File(fs.g, old(fs.v), x), DIRENT * s, Dirent(inum, name))
    ensures !ok ==> File(fs.g, fs.v, x) == File(fs.g, old(fs.v), x)
    ensures OthersSame(fs.g, old(fs.v), fs.v, x) && fs.stray == old(fs.stray)
  {
    hide FileSystem.Valid, File, Shaped, Mapped, IsString, Key, LinkedDir, Target, Dirent, Overwritten, Wrote, SpaceFor,
         Taken, StrayBlock, Done, IsFirstUnused, Grown, AllBytes, PlaceLeft, Recorded, Owned;
    InOrder(fs, x);
    FirstUnusedIs(File(fs.g, fs.v, x), s);
    ghost var f := File(fs.g, fs.v, x);
    var off, de := DIRENT * s, Dirent(inum, name);
    DirentBytes(inum, name);
    LinkedNow(f, s, inum, name);
    var r;
    ghost var e;
    r, e := fs.Writei(x, de, off, DIRENT);
    ok := r == DIRENT;
    if r == -1 {
      return;
    }
    AfterWrite(fs, old(fs.v), x, off, de[..e], off + r);
    EntryInBlock(off);
    OneBlockSpace(fs.g, old(fs.v), x, off, DIRENT);
    NoStray(fs.g, old(fs.v), x, off, DIRENT, SpaceFor(fs.g, old(fs.v), x, off, DIRENT), old(fs.logged));
    assert de[..r] == if ok then de else [];
    NothingWritten(f, off);
  }

  lemma AfterWrite(fs: FileSystem, v: Vol, x: nat, off: nat, data: Bytes, end: int)
    requires fs.Valid() && Shaped(fs.g, v) && Wrote(fs.g, v, fs.v, x, off, data) && Grown(v, fs.v, x, end)
    ensures OthersSame(fs.g, v, fs.v, x)
  {
    WroteOthers(fs.g, v, fs.v, x, off, data, end);
  }

  lemma DirentBytes(inum: nat, name: Bytes)
    requires IsString(name)
    ensures AllBytes(Dirent(inum, name))
  {
    PaddedKey(name);
  }

  lemma NothingWritten(f: Bytes, off: nat)
    requires off <= |f|
    ensures Overwritten(f, off, []) == f
  {
  }

  // ---- Walking a path ----

  /** Follows names from inode `ip` on; 0 if one is missing or is looked up in something that is no directory. */
  ghost function Follow(g: Geometry, v: Vol, dirs: set<nat>, ip: nat, es: seq<Bytes>): (r: int)
    requires TreeOk(g, v, dirs)
    ensures r >= 0
    decreases |es|
  {
    if es == [] then ip
    else if ip !in dirs then 0
    else
      var n := Target(File(g, v, ip), Key(es[0]), 0);
      if n == 0 then 0 else Follow(g, v, dirs, n, es[1..])
  }

  /** A path can be walked in two parts. */
  lemma {:induction false} FollowJoined(g: Geometry, v: Vol, dirs: set<nat>, ip: nat, es: seq<Bytes>, fs: seq<Bytes>)
    requires TreeOk(g, v, dirs) && 0 !in dirs && ip != 0
    ensures var mid := Follow(g, v, dirs, ip, es);
            Follow(g, v, dirs, ip, es + fs) == if mid == 0 then 0 else Follow(g, v, dirs, mid, fs)
    decreases |es|
  {
    if es == [] {
      assert es + fs == fs;
    } else if ip in dirs {
      var n := Target(File(g, v, ip), Key(es[0]), 0);
      assert (es + fs)[1..] == es[1..] + fs;
      if n != 0 {
        FollowJoined(g, v, dirs, n, es[1..], fs);
      }
    }
  }

  /** namei of `a/b` is namei of `b` from what `a` names. */
  lemma PathsCompose(g: Geometry, v: Vol, dirs: set<nat>, ip: nat, a: Bytes, b: Bytes)
    requires TreeOk(g, v, dirs) && 0 !in dirs && ip != 0
    ensures var mid := Follow(g, v, dirs, ip, Elements(a, 0));
            Follow(g, v, dirs, ip, Elements(a + [SLASH] + b, 0)) ==
            if mid == 0 then 0 else Follow(g, v, dirs, mid, Elements(b, 0))
  {
    JoinedElements(a, b);
    FollowJoined(g, v, dirs, ip, Elements(a, 0), Elements(b, 0));
  }

  lemma KeyTwice(name: Bytes)
    ensures Key(Key(name)) == Key(name)
  {
  }

  method LookIn(fs: FileSystem, x: nat, name: Bytes, ghost dirs: set<nat>) returns (inum: int, off: nat)
    requires fs.Valid() && TreeOk(fs.g, fs.v, dirs) && x in dirs && IsString(name)
    modifies fs
    ensures fs.Valid() && fs.Unchanged(old(fs.v), old(fs.owner), old(fs.logged), old(fs.peak))
    ensures inum == Target(File(fs.g, fs.v, x), Key(name), 0) >= 0
  {
    inum, off := Dirlookup(fs, x, name);
  }

  /** What namex answers for the elements `es` from inode `from` on: their inode, or that of their parent directory
      and the last name. */
  ghost predicate Answers(g: Geometry, v: Vol, dirs: set<nat>, from: nat, es: seq<Bytes>, parent: bool, ip: int,
                          name: Bytes)
    requires TreeOk(g, v, dirs)
  {
    if !parent then ip == Follow(g, v, dirs, from, es)
    else if es == [] then ip == 0
    else
      var p := Follow(g, v, dirs, from, es[..|es| - 1]);
      if p in dirs then ip == p && name == Key(es[|es| - 1]) else ip == 0
  }

  /** The same answer, element by element. */
  ghost function Walked(g: Geometry, v: Vol, dirs: set<nat>, ip: nat, es: seq<Bytes>, parent: bool): (r: (int, Bytes))
    requires TreeOk(g, v, dirs)
    decreases |es|
  {
    if es == [] then (if parent then 0 else ip, [])
    else if ip !in dirs then (0, [])
    else if parent && |es| == 1 then (ip, Key(es[0]))
    else
      var n := Target(File(g, v, ip), Key(es[0]), 0);
      if n == 0 then (0, []) else Walked(g, v, dirs, n, es[1..], parent)
  }

  lemma {:induction false} WalkedAnswers(g: Geometry, v: Vol, dirs: set<nat>, ip: nat, es: seq<Bytes>, parent: bool,
                                         name: Bytes)
    requires TreeOk(g, v, dirs) && 0 !in dirs && ip != 0
    requires var r := Walked(g, v, dirs, ip, es, parent); parent && r.0 != 0 ==> name == r.1
    ensures Answers(g, v, dirs, ip, es, parent, Walked(g, v, dirs, ip, es, parent).0, name)
    decreases |es|
  {
    hide Target, File, Key;
    if es != [] && ip in dirs && !(parent && |es| == 1) {
      var n := Target(File(g, v, ip), Key(es[0]), 0);
      if |es| > 1 {
        assert es[..|es| - 1][1..] == es[1..][..|es| - 2] && es[..|es| - 1][0] == es[0];
      }
      if n != 0 {
        WalkedAnswers(g, v, dirs, n, es[1..], parent, name);
      }
    } else if parent && |es| == 1 {
      assert es[..0] == [];
    }
  }

  /** namex: the inode of a path, or of its parent directory and the last name. */
  method Namex(fs: FileSystem, cwd: nat, path: Bytes, parent: bool, dirs: set<nat>) returns (ip: int, name: Bytes)
    requires fs.Valid() && TreeOk(fs.g, fs.v, dirs) && 0 !in dirs && cwd != 0 && IsString(path)
    modifies fs
    ensures fs.Valid() && fs.Unchanged(old(fs.v), old(fs.owner), old(fs.logged), old(fs.peak))
    ensures var from := if path != [] && path[0] == SLASH then ROOTINO else cwd;
            Answers(fs.g, fs.v, dirs, from, Elements(path, 0), parent, ip, name)
  {
    var from := if path != [] && path[0] == SLASH then ROOTINO else cwd;
    ip, name := NameLoop(fs, from, path, parent, dirs);
    WalkedAnswers(fs.g, fs.v, dirs, from, Elements(path, 0), parent, name);
  }

  /** The loop of namex. */
  method NameLoop(fs: FileSystem, from: nat, path: Bytes, parent: bool, dirs: set<nat>) returns (ip: int, name: Bytes)
    requires fs.Valid() && TreeOk(fs.g, fs.v, dirs) && 0 !in dirs && from != 0 && IsString(path)
    modifies fs
    ensures fs.Valid() && fs.Unchanged(old(fs.v), old(fs.owner), old(fs.logged), old(fs.peak))
    ensures var r := Walked(fs.g, fs.v, dirs, from, Elements(path, 0), parent);
            ip == r.0 && (parent && ip != 0 ==> name == r.1)
  {
    hide FileSystem.Valid, File, Shaped, Mapped, Key, Target, Elements, TreeOk, IsString;
    ghost var g, v, all := fs.g, fs.v, Walked(fs.g, fs.v, dirs, from, Elements(path, 0), parent);
    ip := from;
    var pos := 0;
    var found: bool, next: nat;
    found, name, next := Skipelem(path, 0);
    while found
      invariant fs.Valid() && fs.Unchanged(v, old(fs.owner), old(fs.logged), old(fs.peak))
      invariant ip > 0 && 0 <= pos <= |path| && Walked(g, v, dirs, ip, Elements(path, pos), parent) == all
      invariant AtName(path, pos, found, name, next)
      decreases |path| - pos
    {
      if ip !in dirs {
        return 0, name;
      }
      if parent && next == |path| {
        return;
      }
      KeyTwice(Elements(path, pos)[0]);
      NameBytes(path, name);
      var inum, off := LookIn(fs, ip, name, dirs);
      if inum == 0 {
        return 0, name;
      }
      ip, pos := inum, next;
      found, name, next := Skipelem(path, next);
    }
    if parent {
      ip := 0;
    }
  }

  /** What skipelem found at `pos`. */
  ghost predicate AtName(path: Bytes, pos: nat, found: bool, name: Bytes, next: nat)
    requires pos <= |path|
  {
    && next <= |path| && (found <==> Elements(path, pos) != [])
    && (found ==> next > pos && name == Key(Elements(path, pos)[0]) && Elements(path, next) == Elements(path, pos)[1..]
                  && (next == |path| <==> |Elements(path, pos)| == 1)
                  && forall k :: 0 <= k < |name| ==> name[k] in path)
  }

  lemma NameBytes(path: Bytes, name: Bytes)
    requires IsString(path) && forall k :: 0 <= k < |name| ==> name[k] in path
    ensures IsString(name)
  {
  }
}
