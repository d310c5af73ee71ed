// The world seen as a value: the contents of every loaded chunk by key, block reads and
// writes in world coordinates, and sequences of writes such as the ones tree decoration makes.

module WorldViews {
  import opened Basics
  import opened Constants
  import opened Utils
  import opened Chunks

  // ---------------------------------------------------------------------------------------
  // The world as a value: the contents of every loaded chunk, by key

  type ChunkView = map<string, seq<int>>

  predicate WellSized(v: ChunkView) {
    forall k | k in v :: |v[k]| == Volume
  }

  /** The key of the chunk owning world column (x, z). */
  function KeyOf(x: int, z: int): string {
    var c := GetChunkCoordsFromWorld(x, 0, z, ChunkSize);
    ChunkKey(c.cx, c.cz)
  }

  /** The cell of world (x, y, z) inside its chunk. */
  function LocalOf(x: int, y: int, z: int): LocalCoords {
    GetLocalVoxelCoords(x, y, z, ChunkSize)
  }

  /** A block access at (x, y, z) reaches a chunk: it is loaded and y lies inside the world. */
  predicate Lands(keys: set<string>, x: int, y: int, z: int) {
    KeyOf(x, z) in keys && 0 <= y < ChunkHeight
  }

  /** The block at world (x, y, z): air where the access does not land. */
  function BlockIn(v: ChunkView, x: int, y: int, z: int): int
    requires WellSized(v)
  {
    if !Lands(v.Keys, x, y, z) then BlockAir
    else LocalAt(v[KeyOf(x, z)], LocalOf(x, y, z).lx, y, LocalOf(x, y, z).lz)
  }

  /** A write of `t` at world (x, y, z): dropped where the access does not land. */
  function WriteBlock(v: ChunkView, x: int, y: int, z: int, t: int): (r: ChunkView)
    requires WellSized(v)
    ensures WellSized(r) && r.Keys == v.Keys
  {
    if !Lands(v.Keys, x, y, z) then v
    else v[KeyOf(x, z) := WriteLocal(v[KeyOf(x, z)], LocalOf(x, y, z).lx, y, LocalOf(x, y, z).lz, t)]
  }

  /** Two world cells with the same chunk and the same local cell are the same cell. */
  lemma SameCell(x: int, z: int, x': int, z': int, y: int)
    requires KeyOf(x, z) == KeyOf(x', z')
    requires LocalOf(x, y, z).lx == LocalOf(x', y, z').lx && LocalOf(x, y, z).lz == LocalOf(x', y, z').lz
    ensures x == x' && z == z'
  {
    var c := GetChunkCoordsFromWorld(x, 0, z, ChunkSize);
    var c' := GetChunkCoordsFromWorld(x', 0, z', ChunkSize);
    ChunkKeyInjective(c.cx, c.cz, c'.cx, c'.cz);
  }

  /** The split `getBlock` computes (floor division, then subtraction) is the utilities' split. */
  lemma SplitAgrees(x: int, y: int, z: int)
    ensures FloorDiv(x, ChunkSize) == GetChunkCoordsFromWorld(x, 0, z, ChunkSize).cx
    ensures ChunkKey(FloorDiv(x, ChunkSize), FloorDiv(z, ChunkSize)) == KeyOf(x, z)
    ensures x - FloorDiv(x, ChunkSize) * ChunkSize == LocalOf(x, y, z).lx
    ensures z - FloorDiv(z, ChunkSize) * ChunkSize == LocalOf(x, y, z).lz
    ensures 0 <= x - FloorDiv(x, ChunkSize) * ChunkSize < ChunkSize
    ensures 0 <= z - FloorDiv(z, ChunkSize) * ChunkSize < ChunkSize
  {
    var l := LocalOf(x, y, z);
    assert l.lx == x - ChunkSize * FloorDiv(x, ChunkSize);
  }

  /** Outside a loaded chunk or outside the height range every block is air. */
  lemma UnloadedIsAir(v: ChunkView, x: int, y: int, z: int)
    requires WellSized(v)
    requires KeyOf(x, z) !in v || y < 0 || y >= ChunkHeight
    ensures BlockIn(v, x, y, z) == BlockAir
  {
  }

  /**
   * After a write, the written cell reads back as the stored byte when the write lands, and
   * every other cell of the world reads as before.
   */
  lemma WorldReadAfterWrite(v: ChunkView, x: int, y: int, z: int, t: int, x': int, y': int, z': int)
    requires WellSized(v)
    ensures BlockIn(WriteBlock(v, x, y, z, t), x', y', z') ==
      if Lands(v.Keys, x, y, z) && x' == x && y' == y && z' == z then ToUint8(t) else BlockIn(v, x', y', z')
  {
    if Lands(v.Keys, x, y, z) && Lands(v.Keys, x', y', z') && KeyOf(x, z) == KeyOf(x', z') {
      var l, l' := LocalOf(x, y, z), LocalOf(x', y', z');
      ReadAfterWrite(v[KeyOf(x, z)], l.lx, y, l.lz, t, l'.lx, y', l'.lz);
      assert LocalOf(x', y, z').lx == l'.lx && LocalOf(x', y, z').lz == l'.lz;
      if l.lx == l'.lx && y == y' && l.lz == l'.lz {
        SameCell(x, z, x', z', y);
      }
    }
  }

  /** No element occurs twice, as in the insertion-order listing of a JavaScript `Set`. */
  predicate Distinct(s: seq<string>) {
    forall i, j :: 0 <= i < j < |s| ==> s[i] != s[j]
  }

  /** A JavaScript `Set` of keys, in insertion order: adding a present key changes nothing. */
  function AddKey(s: seq<string>, k: string): (r: seq<string>)
    ensures k in r && forall j :: j in s ==> j in r
    ensures forall j :: j in r ==> j in s || j == k
    ensures Distinct(s) ==> Distinct(r)
  {
    if k in s then s else s + [k]
  }

  /** The `changed` set after a deferred write at (x, y, z). */
  function NoteWrite(keys: set<string>, changed: seq<string>, x: int, y: int, z: int): seq<string> {
    if Lands(keys, x, y, z) then AddKey(changed, KeyOf(x, z)) else changed
  }

  // ---------------------------------------------------------------------------------------
  // Sequences of deferred writes, applied in order

  /** One `setBlockDeferred(x, y, z, t, changed)` call. */
  datatype BlockWrite = BlockWrite(x: int, y: int, z: int, t: int)

  function Init<T>(ws: seq<T>): seq<T>
    requires |ws| > 0
  {
    ws[..|ws| - 1]
  }

  function Last<T>(ws: seq<T>): T
    requires |ws| > 0
  {
    ws[|ws| - 1]
  }

  /** The view after the writes `ws`, first to last. */
  function ApplyWrites(v: ChunkView, ws: seq<BlockWrite>): (r: ChunkView)
    requires WellSized(v)
    ensures WellSized(r) && r.Keys == v.Keys
  {
    if ws == [] then v
    else
      var w := Last(ws);
      WriteBlock(ApplyWrites(v, Init(ws)), w.x, w.y, w.z, w.t)
  }

  /** The `changed` set after the writes `ws`. */
  function NoteWrites(keys: set<string>, changed: seq<string>, ws: seq<BlockWrite>): seq<string> {
    if ws == [] then changed
    else
      var w := Last(ws);
      NoteWrite(keys, NoteWrites(keys, changed, Init(ws)), w.x, w.y, w.z)
  }

  /** The keys of the chunks the writes `ws` land in. */
  function Touched(keys: set<string>, ws: seq<BlockWrite>): set<string> {
    if ws == [] then {}
    else
      var w := Last(ws);
      Touched(keys, Init(ws)) + (if Lands(keys, w.x, w.y, w.z) then {KeyOf(w.x, w.z)} else {})
  }

  /** The type of the last write to (x, y, z) among `ws`, if any. */
  function LastValue(ws: seq<BlockWrite>, x: int, y: int, z: int): Option<int> {
    if ws == [] then None
    else if Last(ws).x == x && Last(ws).y == y && Last(ws).z == z then Some(Last(ws).t)
    else LastValue(Init(ws), x, y, z)
  }

  /**
   * After a sequence of writes a landing cell holds the low byte of the last write to it, and
   * every cell nobody wrote, or whose chunk is absent, reads as before.
   */
  lemma {:induction false} ReadAfterWrites(v: ChunkView, ws: seq<BlockWrite>, x: int, y: int, z: int)
    requires WellSized(v)
    ensures BlockIn(ApplyWrites(v, ws), x, y, z) ==
      if Lands(v.Keys, x, y, z) && LastValue(ws, x, y, z).Some? then ToUint8(LastValue(ws, x, y, z).value)
      else BlockIn(v, x, y, z)
  {
    if ws != [] {
      var w := Last(ws);
      ReadAfterWrites(v, Init(ws), x, y, z);
      WorldReadAfterWrite(ApplyWrites(v, Init(ws)), w.x, w.y, w.z, w.t, x, y, z);
    }
  }

  /** The `changed` set after the writes holds the keys it held before and the touched ones. */
  lemma {:induction false} NoteWritesContents(keys: set<string>, changed: seq<string>, ws: seq<BlockWrite>)
    ensures forall k :: k in NoteWrites(keys, changed, ws) <==> k in changed || k in Touched(keys, ws)
    ensures Distinct(changed) ==> Distinct(NoteWrites(keys, changed, ws))
  {
    if ws != [] {
      NoteWritesContents(keys, changed, Init(ws));
    }
  }

  lemma {:induction false} LastValueAppend(a: seq<BlockWrite>, b: seq<BlockWrite>, x: int, y: int, z: int)
    ensures LastValue(a + b, x, y, z) ==
      if LastValue(b, x, y, z).Some? then LastValue(b, x, y, z) else LastValue(a, x, y, z)
  {
    if b != [] {
      assert Last(a + b) == Last(b);
      assert Init(a + b) == a + Init(b);
      LastValueAppend(a, Init(b), x, y, z);
    } else {
      assert a + b == a;
    }
  }

  /** Where every write is a `t` and one of them hits (x, y, z), the last value there is `t`. */
  lemma {:induction false} LastValueUniform(ws: seq<BlockWrite>, t: int, x: int, y: int, z: int)
    requires forall i | 0 <= i < |ws| :: ws[i].t == t
    ensures LastValue(ws, x, y, z) == if BlockWrite(x, y, z, t) in ws then Some(t) else None
  {
    if ws != [] {
      LastValueUniform(Init(ws), t, x, y, z);
      assert ws == Init(ws) + [Last(ws)];
    }
  }

  /** A single write, seen through each of the three folds. */
  lemma SingleWrite(v: ChunkView, keys: set<string>, changed: seq<string>, w: BlockWrite)
    requires WellSized(v)
    ensures ApplyWrites(v, [w]) == WriteBlock(v, w.x, w.y, w.z, w.t)
    ensures NoteWrites(keys, changed, [w]) == NoteWrite(keys, changed, w.x, w.y, w.z)
    ensures Touched(keys, [w]) == if Lands(keys, w.x, w.y, w.z) then {KeyOf(w.x, w.z)} else {}
  {
    assert Init([w]) == [];
  }

  /** Applying `a` then `b` is applying `a + b`. */
  lemma {:induction false} ApplyAppend(v: ChunkView, a: seq<BlockWrite>, b: seq<BlockWrite>)
    requires WellSized(v)
    ensures ApplyWrites(ApplyWrites(v, a), b) == ApplyWrites(v, a + b)
  {
    if b == [] {
      assert a + b == a;
    } else {
      ApplyAppend(v, a, Init(b));
      assert Init(a + b) == a + Init(b);
    }
  }

  lemma {:induction false} NoteAppend(keys: set<string>, changed: seq<string>, a: seq<BlockWrite>, b: seq<BlockWrite>)
    ensures NoteWrites(keys, NoteWrites(keys, changed, a), b) == NoteWrites(keys, changed, a + b)
  {
    if b == [] {
      assert a + b == a;
    } else {
      NoteAppend(keys, changed, a, Init(b));
      assert Init(a + b) == a + Init(b);
    }
  }

  lemma {:induction false} TouchedAppend(keys: set<string>, a: seq<BlockWrite>, b: seq<BlockWrite>)
    ensures Touched(keys, a) + Touched(keys, b) == Touched(keys, a + b)
  {
    if b == [] {
      assert a + b == a;
    } else {
      TouchedAppend(keys, a, Init(b));
      var w := Last(b);
      assert Last(a + b) == w;
      assert Init(a + b) == a + Init(b);
      var extra := if Lands(keys, w.x, w.y, w.z) then {KeyOf(w.x, w.z)} else {};
      assert Touched(keys, b) == Touched(keys, Init(b)) + extra;
      assert Touched(keys, a + b) == Touched(keys, a + Init(b)) + extra;
    }
  }

  /** Writes reach loaded chunks only. */
  lemma {:induction false} TouchedLoaded(keys: set<string>, ws: seq<BlockWrite>)
    ensures Touched(keys, ws) <= keys
  {
    if ws != [] {
      TouchedLoaded(keys, Init(ws));
    }
  }
}
