// The world: a map from chunk key to loaded chunk, the queue of chunks waiting for a mesh,
// block access in world coordinates, tree decoration across chunk borders, and streaming of
// chunks around the player.

module Worlds {
  import opened Basics
  import opened Constants
  import opened Utils
  import opened Terrain
  import opened Chunks
  import opened WorldViews
  import opened Trees

  // ---------------------------------------------------------------------------------------
  // The build queue as a value

  /** `updateStreaming` builds at most this many meshes per call. */
  const BuildsPerUpdate: nat := 2

  /**
   * The second loop of `plantTreesInChunk`: for each changed key in insertion order, the
   * loaded chunk under it joins the queue unless the queue already holds it.
   */
  function QueueChanged(q: seq<Chunk>, loaded: map<string, Chunk>, keys: seq<string>): seq<Chunk>
    decreases |keys|
  {
    if keys == [] then q
    else
      var p := QueueChanged(q, loaded, Init(keys));
      var k := Last(keys);
      if k in loaded && loaded[k] !in p then p + [loaded[k]] else p
  }

  /**
   * The queue keeps its old entries in front; every loaded chunk of a changed key is queued
   * afterwards; every new entry is the chunk of a changed key and appears once.
   */
  lemma {:induction false} QueueChangedContents(q: seq<Chunk>, loaded: map<string, Chunk>, keys: seq<string>)
    ensures |q| <= |QueueChanged(q, loaded, keys)|
    ensures QueueChanged(q, loaded, keys)[..|q|] == q
    ensures forall k | k in keys && k in loaded :: loaded[k] in QueueChanged(q, loaded, keys)
    ensures forall i | |q| <= i < |QueueChanged(q, loaded, keys)| ::
      QueueChanged(q, loaded, keys)[i] !in QueueChanged(q, loaded, keys)[..i]
      && exists k :: k in keys && k in loaded && loaded[k] == QueueChanged(q, loaded, keys)[i]
    decreases |keys|
  {
    if keys != [] {
      var p := QueueChanged(q, loaded, Init(keys));
      QueueChangedContents(q, loaded, Init(keys));
      assert forall k | k in Init(keys) :: k in keys;
      assert keys == Init(keys) + [Last(keys)];
      var r := QueueChanged(q, loaded, keys);
      if Last(keys) in loaded && loaded[Last(keys)] !in p {
        assert r == p + [loaded[Last(keys)]];
        assert r[..|p|] == p;
        assert r[..|q|] == p[..|q|];
      }
    }
  }

  /**
   * The drain loop of `updateStreaming` on the queue `q` when the chunks in `dirty` are dirty:
   * entries leave from the front; a dirty one is built and counts against `budget`, a clean
   * one leaves without counting; the loop stops on an empty queue or a spent budget.  The
   * result is the rest of the queue and the chunks built, in order.
   */
  function Drain(q: seq<Chunk>, dirty: set<Chunk>, budget: nat): (seq<Chunk>, seq<Chunk>)
    decreases |q|
  {
    if q == [] || budget == 0 then (q, [])
    else if q[0] in dirty then
      var r := Drain(q[1..], dirty - {q[0]}, budget - 1);
      (r.0, [q[0]] + r.1)
    else Drain(q[1..], dirty, budget)
  }

  /** Taking a dirty front entry: it joins the chunks built so far, ahead of the rest's builds. */
  lemma DrainTakeDirty(q: seq<Chunk>, dirty: set<Chunk>, budget: nat, built: seq<Chunk>)
    requires q != [] && budget > 0 && q[0] in dirty
    ensures Drain(q, dirty, budget).0 == Drain(q[1..], dirty - {q[0]}, budget - 1).0
    ensures built + Drain(q, dirty, budget).1 == (built + [q[0]]) + Drain(q[1..], dirty - {q[0]}, budget - 1).1
  {
  }

  /**
   * At most `budget` builds; fewer only when the queue ran empty; what remains is a suffix of
   * the queue; every chunk built was dirty and is built once; every dirty chunk the loop took
   * off the queue was built.
   */
  lemma {:induction false} DrainContents(q: seq<Chunk>, dirty: set<Chunk>, budget: nat)
    ensures |Drain(q, dirty, budget).1| <= budget
    ensures |Drain(q, dirty, budget).1| < budget ==> Drain(q, dirty, budget).0 == []
    ensures |Drain(q, dirty, budget).0| <= |q|
    ensures Drain(q, dirty, budget).0 == q[|q| - |Drain(q, dirty, budget).0|..]
    ensures forall c | c in Drain(q, dirty, budget).1 :: c in dirty
    ensures forall i, j | 0 <= i < j < |Drain(q, dirty, budget).1| ::
      Drain(q, dirty, budget).1[i] != Drain(q, dirty, budget).1[j]
    ensures forall c | c in q[..|q| - |Drain(q, dirty, budget).0|] && c in dirty :: c in Drain(q, dirty, budget).1
    decreases |q|
  {
    if q != [] && budget != 0 {
      var rest := q[1..];
      assert q == [q[0]] + rest;
      if q[0] in dirty {
        DrainContents(rest, dirty - {q[0]}, budget - 1);
        var r := Drain(rest, dirty - {q[0]}, budget - 1);
        assert q[|q| - |r.0|..] == rest[|rest| - |r.0|..];
        assert q[..|q| - |r.0|] == [q[0]] + rest[..|rest| - |r.0|];
      } else {
        DrainContents(rest, dirty, budget);
        var r := Drain(rest, dirty, budget);
        assert q[|q| - |r.0|..] == rest[|rest| - |r.0|..];
        assert q[..|q| - |r.0|] == [q[0]] + rest[..|rest| - |r.0|];
      }
    }
  }

  /** `Math.floor(position / CHUNK_SIZE)`: the chunk coordinate of a player coordinate. */
  function PlayerChunk(p: real): (c: int)
    ensures c as real * ChunkSize as real <= p < (c + 1) as real * ChunkSize as real
  {
    (p / ChunkSize as real).Floor
  }

  /** `k` is the `chunkKey` of the coordinates of chunk `c`. */
  ghost predicate KeyedAt(k: string, c: Chunk) {
    k == ChunkKey(c.chunkX, c.chunkZ)
  }

  /**
   * What streaming around chunk (pcx, pcz) promises of the loaded map, from `before` to `after`:
   * every chunk left is within the unload distance, every key of the load neighbourhood is
   * loaded, and a chunk that was loaded is kept, as the same chunk, exactly when it was within
   * the unload distance.
   */
  ghost predicate Streamed(before: map<string, Chunk>, after: map<string, Chunk>, pcx: int, pcz: int, radius: int) {
    && (forall k | k in after :: Cheb(after[k].chunkX - pcx, after[k].chunkZ - pcz) <= UnloadDistanceChunks)
    && (forall dx, dz | Cheb(dx, dz) <= radius :: ChunkKey(pcx + dx, pcz + dz) in after)
    && (forall k | k in before ::
         (k in after <==> Cheb(before[k].chunkX - pcx, before[k].chunkZ - pcz) <= UnloadDistanceChunks))
    && (forall k | k in before && k in after :: after[k] == before[k])
  }

  /**
   * The unload pass cuts `before` down to `mid`, the load pass grows `mid` to `after`; together
   * they stream around (pcx, pcz).
   */
  lemma StreamBounds(before: map<string, Chunk>, mid: map<string, Chunk>, after: map<string, Chunk>,
                     pcx: int, pcz: int, radius: int)
    requires radius <= UnloadDistanceChunks
    requires forall k | k in before :: KeyedAt(k, before[k])
    requires forall k | k in after :: KeyedAt(k, after[k])
    requires forall k | k in before ::
      (k in mid <==> Cheb(before[k].chunkX - pcx, before[k].chunkZ - pcz) <= UnloadDistanceChunks)
    requires forall k | k in mid :: k in before && mid[k] == before[k]
    requires forall k | k in mid :: k in after && after[k] == mid[k]
    requires forall k | k in after :: k in mid || k in OffsetKeys(pcx, pcz, Neighborhood(radius))
    requires forall k | k in OffsetKeys(pcx, pcz, Neighborhood(radius)) :: k in after
    ensures Streamed(before, after, pcx, pcz, radius)
    ensures mid.Keys == before.Keys * after.Keys
  {
    NearBounds(mid, after, pcx, pcz, radius);
    StreamMid(before, mid, after, pcx, pcz);
  }

  /** A chunk both before and after streaming was kept by the unload pass. */
  lemma StreamMid(before: map<string, Chunk>, mid: map<string, Chunk>, after: map<string, Chunk>,
                  pcx: int, pcz: int)
    requires forall k | k in before :: KeyedAt(k, before[k])
    requires forall k | k in after :: KeyedAt(k, after[k])
    requires forall k | k in before ::
      (k in mid <==> Cheb(before[k].chunkX - pcx, before[k].chunkZ - pcz) <= UnloadDistanceChunks)
    requires forall k | k in after && k !in mid ::
      Cheb(after[k].chunkX - pcx, after[k].chunkZ - pcz) <= UnloadDistanceChunks
    ensures forall k | k in before && k in after :: k in mid
  {
    forall k | k in before && k in after
      ensures k in mid
    {
      if k !in mid {
        NearUnderKey(k, after[k], before[k], pcx, pcz, UnloadDistanceChunks);
      }
    }
  }

  /**
   * After the load loop over the neighbourhood of (pcx, pcz) within `radius`, every new chunk
   * lies within `radius` and every offset within `radius` is loaded.
   */
  lemma NearBounds(before: map<string, Chunk>, after: map<string, Chunk>, pcx: int, pcz: int, radius: int)
    requires forall k | k in after :: KeyedAt(k, after[k])
    requires forall k | k in after :: k in before || k in OffsetKeys(pcx, pcz, Neighborhood(radius))
    requires forall k | k in OffsetKeys(pcx, pcz, Neighborhood(radius)) :: k in after
    ensures forall k | k in after && k !in before :: Cheb(after[k].chunkX - pcx, after[k].chunkZ - pcz) <= radius
    ensures forall dx, dz | Cheb(dx, dz) <= radius :: ChunkKey(pcx + dx, pcz + dz) in after
  {
    var coords := Neighborhood(radius);
    assert forall j | 0 <= j < |coords| :: Cheb(coords[j].0, coords[j].1) <= radius by {
      NeighborhoodContents(radius);
    }
    forall k | k in after && k !in before
      ensures Cheb(after[k].chunkX - pcx, after[k].chunkZ - pcz) <= radius
    {
      OffsetKeyNear(pcx, pcz, radius, coords, k, after[k]);
    }
    forall dx, dz | Cheb(dx, dz) <= radius
      ensures ChunkKey(pcx + dx, pcz + dz) in after
    {
      NeighborhoodKey(pcx, pcz, radius, dx, dz);
    }
  }

  /** One more key of the unload loop looked at: it is dropped exactly when it is far. */
  lemma DropOne(m: map<string, Chunk>, far: set<string>, keys: set<string>, key: string)
    requires key in keys
    ensures key in far ==> (m - (far - keys)) - {key} == m - (far - (keys - {key}))
    ensures key !in far ==> m - (far - keys) == m - (far - (keys - {key}))
  {
    assert far - (keys - {key}) == if key in far then (far - keys) + {key} else far - keys;
  }

  /** Two chunks under one key are equally far from any chunk (pcx, pcz). */
  lemma NearUnderKey(k: string, a: Chunk, b: Chunk, pcx: int, pcz: int, d: int)
    requires KeyedAt(k, a) && KeyedAt(k, b)
    requires Cheb(a.chunkX - pcx, a.chunkZ - pcz) <= d
    ensures Cheb(b.chunkX - pcx, b.chunkZ - pcz) <= d
  {
    KeyFixesCoords(k, a, b);
  }

  /** The keys of the chunks at the offsets `coords` from chunk (pcx, pcz). */
  function OffsetKeys(pcx: int, pcz: int, coords: seq<(int, int)>): seq<string> {
    seq(|coords|, j requires 0 <= j < |coords| => ChunkKey(pcx + coords[j].0, pcz + coords[j].1))
  }

  /**
   * What `ensureChunk` of (cx, cz) does to the contents of the world: nothing when the chunk is
   * loaded; otherwise the generated chunk is added and its trees are written.
   */
  function EnsureView(src: TerrainSource, v: ChunkView, cx: int, cz: int): (r: ChunkView)
    requires WellSized(v)
    ensures WellSized(r) && r.Keys == v.Keys + {ChunkKey(cx, cz)}
  {
    var key := ChunkKey(cx, cz);
    if key in v then v else ApplyWrites(v[key := GeneratedCells(src, cx, cz)], PlantWrites(src, cx, cz))
  }

  /** The contents of the world after the load loop over the offsets `coords` from chunk (pcx, pcz). */
  function LoadView(src: TerrainSource, v: ChunkView, pcx: int, pcz: int, coords: seq<(int, int)>): (r: ChunkView)
    requires WellSized(v)
    ensures WellSized(r)
    decreases |coords|
  {
    if coords == [] then v
    else
      var c := Last(coords);
      EnsureView(src, LoadView(src, v, pcx, pcz, Init(coords)), pcx + c.0, pcz + c.1)
  }

  /** The load loop loads exactly the chunks under the offsets' keys, and unloads none. */
  lemma {:induction false} LoadViewKeys(src: TerrainSource, v: ChunkView, pcx: int, pcz: int, coords: seq<(int, int)>)
    requires WellSized(v)
    ensures forall k :: k in LoadView(src, v, pcx, pcz, coords) <==> k in v || k in OffsetKeys(pcx, pcz, coords)
    decreases |coords|
  {
    if coords != [] {
      LoadViewKeys(src, v, pcx, pcz, Init(coords));
      OffsetKeysSnoc(pcx, pcz, coords);
      LoadViewStep(src, v, pcx, pcz, coords);
    }
  }

  /** The last offset's pass of the load loop adds its chunk's key and nothing else. */
  lemma LoadViewStep(src: TerrainSource, v: ChunkView, pcx: int, pcz: int, coords: seq<(int, int)>)
    requires WellSized(v) && coords != []
    ensures var c := Last(coords);
      forall k :: k in LoadView(src, v, pcx, pcz, coords)
        <==> k in LoadView(src, v, pcx, pcz, Init(coords)) || k == ChunkKey(pcx + c.0, pcz + c.1)
  {
  }

  /** The keys of the offsets, last offset split off. */
  lemma {:induction false} OffsetKeysSnoc(pcx: int, pcz: int, coords: seq<(int, int)>)
    requires coords != []
    ensures OffsetKeys(pcx, pcz, coords)
      == OffsetKeys(pcx, pcz, Init(coords)) + [ChunkKey(pcx + Last(coords).0, pcz + Last(coords).1)]
  {
    var whole := OffsetKeys(pcx, pcz, coords);
    var split := OffsetKeys(pcx, pcz, Init(coords)) + [ChunkKey(pcx + Last(coords).0, pcz + Last(coords).1)];
    assert |whole| == |split|;
    forall j | 0 <= j < |whole|
      ensures whole[j] == split[j]
    {
      if j < |coords| - 1 {
        assert Init(coords)[j] == coords[j];
      }
    }
  }

  /** When every chunk of the offsets is loaded already, the load loop changes nothing. */
  lemma {:induction false} LoadViewIdle(src: TerrainSource, v: ChunkView, pcx: int, pcz: int, coords: seq<(int, int)>)
    requires WellSized(v)
    requires forall k | k in OffsetKeys(pcx, pcz, coords) :: k in v
    ensures LoadView(src, v, pcx, pcz, coords) == v
    decreases |coords|
  {
    if coords != [] {
      OffsetKeysSnoc(pcx, pcz, coords);
      LoadViewIdle(src, v, pcx, pcz, Init(coords));
    }
  }

  /** So a second load pass over the same neighbourhood leaves the world as the first one left it. */
  lemma LoadViewTwice(src: TerrainSource, v: ChunkView, pcx: int, pcz: int, coords: seq<(int, int)>)
    requires WellSized(v)
    ensures var once := LoadView(src, v, pcx, pcz, coords);
      LoadView(src, once, pcx, pcz, coords) == once
  {
    LoadViewKeys(src, v, pcx, pcz, coords);
    LoadViewIdle(src, LoadView(src, v, pcx, pcz, coords), pcx, pcz, coords);
  }

  /**
   * What the load loop of `updateStreaming` works on: the keys of the loaded chunks, the build
   * queue, and the keys of the loaded chunks that are dirty and of those without a mesh.  (What
   * the loop does to the blocks is `LoadView`.)
   */
  datatype Loading = Loading(keys: set<string>, queue: seq<Chunk>, dirty: set<string>, meshless: set<string>)

  /**
   * What `ensureChunk` of (cx, cz) does to that state, `loaded` giving the chunk under each key:
   * nothing when the chunk is loaded; otherwise the chunk is generated, loaded and queued, and
   * its trees are written, the chunks they reach being marked dirty and queued unless the queue
   * holds them already.  The new chunk is dirty and has no mesh.
   */
  function EnsureStep(src: TerrainSource, loaded: map<string, Chunk>, s: Loading, cx: int, cz: int): (r: Loading)
    requires ChunkKey(cx, cz) in loaded
    ensures r.keys == s.keys + {ChunkKey(cx, cz)}
  {
    var key := ChunkKey(cx, cz);
    if key in s.keys then s
    else
      var writes := PlantWrites(src, cx, cz);
      var keys := s.keys + {key};
      Loading(keys,
              QueueChanged(s.queue + [loaded[key]], loaded, NoteWrites(keys, [], writes)),
              s.dirty + {key} + Touched(keys, writes),
              s.meshless + {key})
  }

  /** The missing-chunk case of `EnsureStep`, component by component. */
  lemma EnsureStepNew(src: TerrainSource, loaded: map<string, Chunk>, s: Loading, cx: int, cz: int, r: Loading)
    requires ChunkKey(cx, cz) in loaded && ChunkKey(cx, cz) !in s.keys
    requires r.keys == s.keys + {ChunkKey(cx, cz)}
    requires r.queue == QueueChanged(s.queue + [loaded[ChunkKey(cx, cz)]], loaded,
                                     NoteWrites(s.keys + {ChunkKey(cx, cz)}, [], PlantWrites(src, cx, cz)))
    requires r.dirty == s.dirty + {ChunkKey(cx, cz)} + Touched(s.keys + {ChunkKey(cx, cz)}, PlantWrites(src, cx, cz))
    requires r.meshless == s.meshless + {ChunkKey(cx, cz)}
    ensures EnsureStep(src, loaded, s, cx, cz) == r
  {
  }

  /**
   * One pass of the load loop: `ensureChunk` of (cx, cz), after which the chunk is queued again
   * when it is dirty and has no mesh.
   */
  function LoadStep(src: TerrainSource, loaded: map<string, Chunk>, s: Loading, cx: int, cz: int): (r: Loading)
    requires ChunkKey(cx, cz) in loaded
    ensures r.keys == s.keys + {ChunkKey(cx, cz)}
  {
    var key := ChunkKey(cx, cz);
    var e := EnsureStep(src, loaded, s, cx, cz);
    e.(queue := e.queue + if key in e.dirty && key in e.meshless then [loaded[key]] else [])
  }

  /** A pass of the load loop is its `ensureChunk` followed by the queue push. */
  lemma LoadStepAfter(src: TerrainSource, loaded: map<string, Chunk>, s: Loading, cx: int, cz: int,
                      e: Loading, queue: seq<Chunk>)
    requires ChunkKey(cx, cz) in loaded
    requires e == EnsureStep(src, loaded, s, cx, cz)
    requires queue == e.queue + if ChunkKey(cx, cz) in e.dirty && ChunkKey(cx, cz) in e.meshless
                                then [loaded[ChunkKey(cx, cz)]] else []
    ensures LoadStep(src, loaded, s, cx, cz) == e.(queue := queue)
  {
  }

  /** The state after the unload pass, which keeps the chunks under `keep` and drops the rest. */
  function Kept(s: Loading, keep: set<string>): Loading {
    Loading(s.keys * keep, s.queue, s.dirty * keep, s.meshless * keep)
  }

  /** The load loop over the offsets `coords` from chunk (pcx, pcz), one `LoadStep` per offset. */
  function LoadFold(src: TerrainSource, loaded: map<string, Chunk>, s: Loading,
                    pcx: int, pcz: int, coords: seq<(int, int)>): (r: Loading)
    requires forall k | k in OffsetKeys(pcx, pcz, coords) :: k in loaded
    ensures forall k :: k in r.keys <==> k in s.keys || k in OffsetKeys(pcx, pcz, coords)
    decreases |coords|
  {
    if coords == [] then s
    else
      var c := Last(coords);
      OffsetKeysSnoc(pcx, pcz, coords);
      LoadStep(src, loaded, LoadFold(src, loaded, s, pcx, pcz, Init(coords)), pcx + c.0, pcz + c.1)
  }

  /** The load loop over offsets ending in `c` is the loop over the rest, then the pass for `c`. */
  lemma LoadFoldSnoc(src: TerrainSource, loaded: map<string, Chunk>, s: Loading,
                     pcx: int, pcz: int, coords: seq<(int, int)>)
    requires coords != []
    requires forall k | k in OffsetKeys(pcx, pcz, coords) :: k in loaded
    ensures forall k :: k in OffsetKeys(pcx, pcz, coords)
                   <==> k in OffsetKeys(pcx, pcz, Init(coords)) || k == ChunkKey(pcx + Last(coords).0, pcz + Last(coords).1)
    ensures forall k | k in OffsetKeys(pcx, pcz, Init(coords)) :: k in loaded
    ensures ChunkKey(pcx + Last(coords).0, pcz + Last(coords).1) in loaded
    ensures LoadFold(src, loaded, s, pcx, pcz, coords)
      == LoadStep(src, loaded, LoadFold(src, loaded, s, pcx, pcz, Init(coords)),
                  pcx + Last(coords).0, pcz + Last(coords).1)
  {
    OffsetKeysSnoc(pcx, pcz, coords);
  }

  /** The queue pushes of the changed keys depend only on the chunks under those keys. */
  lemma {:induction false} QueueChangedAgree(q: seq<Chunk>, m1: map<string, Chunk>, m2: map<string, Chunk>, keys: seq<string>)
    requires forall k | k in keys :: k in m1 && k in m2 && m2[k] == m1[k]
    ensures QueueChanged(q, m1, keys) == QueueChanged(q, m2, keys)
    decreases |keys|
  {
    if keys != [] {
      assert forall k | k in Init(keys) :: k in keys;
      QueueChangedAgree(q, m1, m2, Init(keys));
    }
  }

  /** A pass of the load loop reads only the chunks already loaded and its own. */
  lemma LoadStepAgree(src: TerrainSource, m1: map<string, Chunk>, m2: map<string, Chunk>, s: Loading, cx: int, cz: int)
    requires ChunkKey(cx, cz) in m1 && s.keys <= m1.Keys
    requires forall k | k in m1 :: k in m2 && m2[k] == m1[k]
    ensures ChunkKey(cx, cz) in m2 && LoadStep(src, m1, s, cx, cz) == LoadStep(src, m2, s, cx, cz)
  {
    var key := ChunkKey(cx, cz);
    if key !in s.keys {
      var keys := s.keys + {key};
      var writes := PlantWrites(src, cx, cz);
      NoteWritesContents(keys, [], writes);
      TouchedLoaded(keys, writes);
      QueueChangedAgree(s.queue + [m1[key]], m1, m2, NoteWrites(keys, [], writes));
    }
  }

  /** So the load loop gives the same result under any larger map that agrees with `m1`. */
  lemma {:induction false} LoadFoldAgree(src: TerrainSource, m1: map<string, Chunk>, m2: map<string, Chunk>, s: Loading,
                                         pcx: int, pcz: int, coords: seq<(int, int)>)
    requires s.keys <= m1.Keys
    requires forall k | k in OffsetKeys(pcx, pcz, coords) :: k in m1
    requires forall k | k in m1 :: k in m2 && m2[k] == m1[k]
    ensures forall k | k in OffsetKeys(pcx, pcz, coords) :: k in m2
    ensures LoadFold(src, m1, s, pcx, pcz, coords) == LoadFold(src, m2, s, pcx, pcz, coords)
    decreases |coords|
  {
    if coords != [] {
      var c := Last(coords);
      LoadFoldSnoc(src, m1, s, pcx, pcz, coords);
      LoadFoldAgree(src, m1, m2, s, pcx, pcz, Init(coords));
      LoadFoldSnoc(src, m2, s, pcx, pcz, coords);
      LoadStepAgree(src, m1, m2, LoadFold(src, m1, s, pcx, pcz, Init(coords)), pcx + c.0, pcz + c.1);
    }
  }

  /**
   * The load loop over `prefix + [c]` is the loop over `prefix` under the chunks known before
   * the last pass, then the pass for `c` under the chunks known after it.
   */
  lemma {:induction false} LoadPrefixStep(src: TerrainSource, m1: map<string, Chunk>, m2: map<string, Chunk>, s: Loading,
                       pcx: int, pcz: int, prefix: seq<(int, int)>, c: (int, int))
    requires s.keys <= m1.Keys
    requires forall k | k in OffsetKeys(pcx, pcz, prefix) :: k in m1
    requires forall k | k in m1 :: k in m2 && m2[k] == m1[k]
    requires ChunkKey(pcx + c.0, pcz + c.1) in m2
    ensures forall k | k in OffsetKeys(pcx, pcz, prefix + [c]) :: k in m2
    ensures LoadFold(src, m2, s, pcx, pcz, prefix + [c])
      == LoadStep(src, m2, LoadFold(src, m1, s, pcx, pcz, prefix), pcx + c.0, pcz + c.1)
  {
    var coords := prefix + [c];
    assert Init(coords) == prefix && Last(coords) == c;
    OffsetKeysSnoc(pcx, pcz, coords);
    assert forall k | k in OffsetKeys(pcx, pcz, coords) :: k in OffsetKeys(pcx, pcz, prefix) || k == ChunkKey(pcx + c.0, pcz + c.1);
    LoadFoldAgree(src, m1, m2, s, pcx, pcz, prefix);
    LoadFoldSnoc(src, m2, s, pcx, pcz, coords);
  }

  /** A prefix one element longer. */
  lemma TakeOneMore<T>(s: seq<T>, i: nat)
    requires i < |s|
    ensures s[..i + 1] == s[..i] + [s[i]]
  {
  }

  /**
   * One pass keeps the queue in front and appends loaded chunks only; no flag is cleared; the
   * only new meshless key is that of a chunk just made; every chunk the pass makes dirty is
   * queued, and so is its own chunk when it ends dirty and meshless.
   */
  lemma LoadStepQueue(src: TerrainSource, loaded: map<string, Chunk>, s: Loading, cx: int, cz: int)
    requires ChunkKey(cx, cz) in loaded
    requires s.keys <= loaded.Keys
    ensures var r := LoadStep(src, loaded, s, cx, cz);
      |s.queue| <= |r.queue| && r.queue[..|s.queue|] == s.queue
      && (forall i | |s.queue| <= i < |r.queue| :: r.queue[i] in loaded.Values)
    ensures var r := LoadStep(src, loaded, s, cx, cz);
      s.dirty <= r.dirty
      && r.meshless == s.meshless + (if ChunkKey(cx, cz) in s.keys then {} else {ChunkKey(cx, cz)})
    ensures var r := LoadStep(src, loaded, s, cx, cz);
      forall k | k in r.dirty && k !in s.dirty :: k in loaded && loaded[k] in r.queue
    ensures var r := LoadStep(src, loaded, s, cx, cz);
      ChunkKey(cx, cz) in r.dirty && ChunkKey(cx, cz) in r.meshless ==> loaded[ChunkKey(cx, cz)] in r.queue
  {
    var key := ChunkKey(cx, cz);
    var c := loaded[key];
    if key in s.keys {
      var r := LoadStep(src, loaded, s, cx, cz);
      assert r.queue[..|s.queue|] == s.queue;
    } else {
      var writes := PlantWrites(src, cx, cz);
      var keys := s.keys + {key};
      NoteWritesContents(keys, [], writes);
      TouchedLoaded(keys, writes);
      NewChunkQueue(s.queue, c, loaded, NoteWrites(keys, [], writes));
      NewChunkQueued(s.queue, c, loaded, NoteWrites(keys, [], writes));
    }
  }

  /**
   * The queue after a new chunk `c` is made: it joins the back, the chunks of the keys in
   * `changed` join unless queued, and `c` joins once more.  The old queue stays in front and
   * only loaded chunks join.
   */
  lemma NewChunkQueue(q: seq<Chunk>, c: Chunk, loaded: map<string, Chunk>, changed: seq<string>)
    requires c in loaded.Values
    ensures var r := QueueChanged(q + [c], loaded, changed) + [c];
      |q| <= |r| && r[..|q|] == q
      && (forall i | |q| <= i < |r| :: r[i] in loaded.Values)
  {
    var p := QueueChanged(q + [c], loaded, changed);
    var r := p + [c];
    QueueChangedContents(q + [c], loaded, changed);
    assert r[..|q|] == p[..|q|] == (q + [c])[..|q|] == q;
    forall i | |q| <= i < |r|
      ensures r[i] in loaded.Values
    {
      if i == |q| {
        assert p[i] == (q + [c])[|q|];
      } else if i < |p| {
        var k :| k in changed && k in loaded && loaded[k] == p[i];
      }
    }
  }

  /** In that queue sit `c` and the chunk of every changed key. */
  lemma NewChunkQueued(q: seq<Chunk>, c: Chunk, loaded: map<string, Chunk>, changed: seq<string>)
    ensures var r := QueueChanged(q + [c], loaded, changed) + [c];
      c in r && forall k | k in changed && k in loaded :: loaded[k] in r
  {
    var p := QueueChanged(q + [c], loaded, changed);
    var r := p + [c];
    QueueChangedContents(q + [c], loaded, changed);
    assert r[|p|] == c;
    forall k | k in changed && k in loaded
      ensures loaded[k] in r
    {
      var j :| 0 <= j < |p| && p[j] == loaded[k];
      assert r[j] == loaded[k];
    }
  }

  /** A chunk in the queue after the load loop that is not loaded was queued before it. */
  lemma LoadFoldKeepsUnloaded(src: TerrainSource, loaded: map<string, Chunk>, s: Loading,
                              pcx: int, pcz: int, coords: seq<(int, int)>)
    requires s.keys <= loaded.Keys
    requires forall k | k in OffsetKeys(pcx, pcz, coords) :: k in loaded
    ensures forall c | c in LoadFold(src, loaded, s, pcx, pcz, coords).queue && c !in loaded.Values :: c in s.queue
  {
    var r := LoadFold(src, loaded, s, pcx, pcz, coords);
    LoadFoldGrows(src, loaded, s, pcx, pcz, coords);
    forall c | c in r.queue && c !in loaded.Values
      ensures c in s.queue
    {
      var i :| 0 <= i < |r.queue| && r.queue[i] == c;
      assert i < |s.queue| && r.queue[..|s.queue|][i] == c;
    }
  }

  /** The load loop keeps the queue in front, appends loaded chunks only and clears no dirty flag. */
  lemma {:induction false} LoadFoldGrows(src: TerrainSource, loaded: map<string, Chunk>, s: Loading,
                                         pcx: int, pcz: int, coords: seq<(int, int)>)
    requires s.keys <= loaded.Keys
    requires forall k | k in OffsetKeys(pcx, pcz, coords) :: k in loaded
    ensures var r := LoadFold(src, loaded, s, pcx, pcz, coords);
      |s.queue| <= |r.queue| && r.queue[..|s.queue|] == s.queue
    ensures var r := LoadFold(src, loaded, s, pcx, pcz, coords);
      forall i | |s.queue| <= i < |r.queue| :: r.queue[i] in loaded.Values
    ensures s.dirty <= LoadFold(src, loaded, s, pcx, pcz, coords).dirty
    decreases |coords|
  {
    if coords != [] {
      var c := Last(coords);
      LoadFoldSnoc(src, loaded, s, pcx, pcz, coords);
      var r' := LoadFold(src, loaded, s, pcx, pcz, Init(coords));
      var r := LoadFold(src, loaded, s, pcx, pcz, coords);
      LoadFoldGrows(src, loaded, s, pcx, pcz, Init(coords));
      LoadStepQueue(src, loaded, r', pcx + c.0, pcz + c.1);
      assert r.queue[..|s.queue|] == r.queue[..|r'.queue|][..|s.queue|];
      forall i | |s.queue| <= i < |r.queue|
        ensures r.queue[i] in loaded.Values
      {
        if i < |r'.queue| {
          assert r.queue[i] == r'.queue[i];
        }
      }
    }
  }

  /** Every chunk the load loop makes dirty is queued. */
  lemma {:induction false} LoadFoldDirtied(src: TerrainSource, loaded: map<string, Chunk>, s: Loading,
                                           pcx: int, pcz: int, coords: seq<(int, int)>)
    requires s.keys <= loaded.Keys
    requires forall k | k in OffsetKeys(pcx, pcz, coords) :: k in loaded
    ensures var r := LoadFold(src, loaded, s, pcx, pcz, coords);
      forall k | k in r.dirty && k !in s.dirty :: k in loaded && loaded[k] in r.queue
    decreases |coords|
  {
    if coords != [] {
      var c := Last(coords);
      LoadFoldSnoc(src, loaded, s, pcx, pcz, coords);
      var r' := LoadFold(src, loaded, s, pcx, pcz, Init(coords));
      var r := LoadFold(src, loaded, s, pcx, pcz, coords);
      LoadFoldDirtied(src, loaded, s, pcx, pcz, Init(coords));
      LoadStepQueue(src, loaded, r', pcx + c.0, pcz + c.1);
      forall k | k in r.dirty && k !in s.dirty
        ensures k in loaded && loaded[k] in r.queue
      {
        if k in r'.dirty {
          QueuePrefixHolds(r'.queue, r.queue, loaded[k]);
        }
      }
    }
  }

  /** Every chunk of the offsets that ends the load loop dirty and without a mesh is queued. */
  lemma {:induction false} LoadFoldQueued(src: TerrainSource, loaded: map<string, Chunk>, s: Loading,
                                          pcx: int, pcz: int, coords: seq<(int, int)>)
    requires s.keys <= loaded.Keys
    requires forall k | k in OffsetKeys(pcx, pcz, coords) :: k in loaded
    ensures var r := LoadFold(src, loaded, s, pcx, pcz, coords);
      forall k | k in OffsetKeys(pcx, pcz, coords) && k in r.dirty && k in r.meshless :: loaded[k] in r.queue
    decreases |coords|
  {
    if coords != [] {
      var c := Last(coords);
      var key := ChunkKey(pcx + c.0, pcz + c.1);
      LoadFoldSnoc(src, loaded, s, pcx, pcz, coords);
      var r' := LoadFold(src, loaded, s, pcx, pcz, Init(coords));
      var r := LoadFold(src, loaded, s, pcx, pcz, coords);
      LoadFoldQueued(src, loaded, s, pcx, pcz, Init(coords));
      LoadStepQueue(src, loaded, r', pcx + c.0, pcz + c.1);
      forall k | k in OffsetKeys(pcx, pcz, coords) && k in r.dirty && k in r.meshless
        ensures loaded[k] in r.queue
      {
        if k != key {
          assert k in OffsetKeys(pcx, pcz, Init(coords));
          if k in r'.dirty {
            QueuePrefixHolds(r'.queue, r.queue, loaded[k]);
          }
        }
      }
    }
  }

  /** An entry of a queue is still there once more entries are appended. */
  lemma QueuePrefixHolds(q: seq<Chunk>, q': seq<Chunk>, c: Chunk)
    requires |q| <= |q'| && q'[..|q|] == q && c in q
    ensures c in q'
  {
    var j :| 0 <= j < |q| && q[j] == c;
    assert q'[j] == c;
  }

  /** The chunks without a mesh after the load loop: those before, and the ones it made. */
  lemma {:induction false} LoadFoldMeshless(src: TerrainSource, loaded: map<string, Chunk>, s: Loading,
                                            pcx: int, pcz: int, coords: seq<(int, int)>)
    requires forall k | k in OffsetKeys(pcx, pcz, coords) :: k in loaded
    ensures forall k :: k in LoadFold(src, loaded, s, pcx, pcz, coords).meshless
                   <==> k in s.meshless || (k in OffsetKeys(pcx, pcz, coords) && k !in s.keys)
    decreases |coords|
  {
    if coords != [] {
      var c := Last(coords);
      OffsetKeysSnoc(pcx, pcz, coords);
      LoadFoldMeshless(src, loaded, s, pcx, pcz, Init(coords));
    }
  }

  /** A chunk stored under one of those keys lies within `radius` when every offset does. */
  lemma OffsetKeyNear(pcx: int, pcz: int, radius: int, coords: seq<(int, int)>, k: string, c: Chunk)
    requires forall j | 0 <= j < |coords| :: Cheb(coords[j].0, coords[j].1) <= radius
    requires k in OffsetKeys(pcx, pcz, coords) && KeyedAt(k, c)
    ensures Cheb(c.chunkX - pcx, c.chunkZ - pcz) <= radius
  {
    var j :| 0 <= j < |coords| && OffsetKeys(pcx, pcz, coords)[j] == k;
    ChunkKeyInjective(c.chunkX, c.chunkZ, pcx + coords[j].0, pcz + coords[j].1);
  }

  /** Every chunk within `radius` has its key among those of the neighbourhood's offsets. */
  lemma NeighborhoodKey(pcx: int, pcz: int, radius: int, dx: int, dz: int)
    requires Cheb(dx, dz) <= radius
    ensures ChunkKey(pcx + dx, pcz + dz) in OffsetKeys(pcx, pcz, Neighborhood(radius))
  {
    var coords := Neighborhood(radius);
    NeighborhoodContents(radius);
    var j :| 0 <= j < |coords| && coords[j] == (dx, dz);
    assert OffsetKeys(pcx, pcz, coords)[j] == ChunkKey(pcx + dx, pcz + dz);
  }

  /** A key names one pair of coordinates, so two chunks under one key sit at the same place. */
  lemma KeyFixesCoords(k: string, a: Chunk, b: Chunk)
    requires KeyedAt(k, a) && KeyedAt(k, b)
    ensures a.chunkX == b.chunkX && a.chunkZ == b.chunkZ
  {
    ChunkKeyInjective(a.chunkX, a.chunkZ, b.chunkX, b.chunkZ);
  }

  // ---------------------------------------------------------------------------------------
  // The world object

  class World {
    const generator: TerrainSource
    /** Loaded chunks by `chunkKey`. */
    var chunks: map<string, Chunk>
    /** Chunks waiting for `buildMesh`, oldest first; entries may repeat or be unloaded. */
    var toBuild: seq<Chunk>

    /** Every chunk this world has made or queued, with its storage. */
    ghost var Repr: set<object>
    /** The key each storage array was made for; it keeps storage of distinct keys apart. */
    ghost var owner: map<array<int>, string>
    /**
     * The chunks dropped from `chunks`; the build queue may still hold them.  The block writes
     * and the loads modify `Repr - Unloaded`, so they leave these chunks as they were.
     */
    ghost var Unloaded: set<Chunk>

    /**
     * Every loaded chunk sits under its own key with full-size storage of its own, so the
     * contents of the world are well defined.
     */
    ghost predicate Stored()
      reads this`chunks, this`owner
    {
      (forall k {:trigger KeyedAt(k, chunks[k])} | k in chunks :: KeyedAt(k, chunks[k]))
      && (forall k {:trigger chunks[k]} | k in chunks ::
         chunks[k].Valid() && chunks[k].data in owner && owner[chunks[k].data] == k)
    }

    /**
     * The storage is well defined, every loaded chunk was made by this world's generator, and
     * every loaded or queued chunk belongs to the world's footprint.
     */
    ghost predicate Valid()
      reads this
    {
      Stored()
      && (forall k {:trigger chunks[k]} | k in chunks ::
         chunks[k].generator == generator && chunks[k] in Repr && chunks[k].data in Repr
         && chunks[k] !in Unloaded)
      && (forall i | 0 <= i < |toBuild| ::
         toBuild[i].Valid() && toBuild[i] in Repr && (toBuild[i] in Unloaded || Holds(toBuild[i])))
      && this !in Repr
    }

    /** `c` is the chunk loaded under its own key. */
    ghost predicate Holds(c: Chunk)
      reads this`chunks
    {
      ChunkKey(c.chunkX, c.chunkZ) in chunks && chunks[ChunkKey(c.chunkX, c.chunkZ)] == c
    }

    /** The contents of every loaded chunk. */
    ghost function View(): (v: ChunkView)
      reads this`chunks, this`owner, owner.Keys
      requires Stored()
      ensures WellSized(v) && v.Keys == chunks.Keys
    {
      map k | k in chunks :: chunks[k].data[..]
    }

    constructor (gen: TerrainSource)
      ensures Valid() && generator == gen
      ensures chunks == map[] && toBuild == []
    {
      generator := gen;
      chunks := map[];
      toBuild := [];
      Repr := {};
      owner := map[];
      Unloaded := {};
    }

    /** `getBlock`: air unless the owning chunk is loaded and y lies inside the world. */
    function GetBlock(x: int, y: int, z: int): (r: int)
      reads this, Repr
      requires Valid()
      ensures r == BlockIn(View(), x, y, z)
    {
      var cx := FloorDiv(x, ChunkSize);
      var cz := FloorDiv(z, ChunkSize);
      var key := ChunkKey(cx, cz);
      SplitAgrees(x, y, z);
      if key !in chunks then BlockAir
      else
        var lx := x - cx * ChunkSize;
        var lz := z - cz * ChunkSize;
        if y < 0 || y >= ChunkHeight then BlockAir
        else chunks[key].GetBlockLocal(lx, y, lz)
    }

    /**
     * `setBlockDeferred`: the write of `setBlock` without a remesh; the chunk is only marked
     * dirty and its key added to `changed`.
     */
    method SetBlockDeferred(x: int, y: int, z: int, t: int, changed: seq<string>) returns (changed': seq<string>)
      requires Valid()
      modifies Repr - Unloaded
      ensures Valid()
      ensures View() == WriteBlock(old(View()), x, y, z, t)
      ensures changed' == NoteWrite(chunks.Keys, changed, x, y, z)
      ensures forall k | k in chunks ::
        chunks[k].isDirty == (old(chunks[k].isDirty) || (Lands(chunks.Keys, x, y, z) && k == KeyOf(x, z)))
      ensures forall k | k in chunks :: chunks[k].mesh == old(chunks[k].mesh)
    {
      var cx := FloorDiv(x, ChunkSize);
      var cz := FloorDiv(z, ChunkSize);
      var key := ChunkKey(cx, cz);
      SplitAgrees(x, y, z);
      if key !in chunks {
        changed' := changed;
        return;
      }
      var chunk := chunks[key];
      var lx := x - cx * ChunkSize;
      var lz := z - cz * ChunkSize;
      if y < 0 || y >= ChunkHeight {
        changed' := changed;
        return;
      }
      WriteLocalChunk(key, chunk, lx, y, lz, t);
      changed' := AddKey(changed, key);
    }

    /** `setBlockLocal` on the loaded chunk under `key`, seen from the world. */
    method WriteLocalChunk(key: string, chunk: Chunk, lx: int, y: int, lz: int, t: int)
      requires Valid() && key in chunks && chunks[key] == chunk
      modifies chunk.data, chunk`isDirty
      ensures Valid()
      ensures View() == old(View())[key := WriteLocal(old(View())[key], lx, y, lz, t)]
      ensures forall k | k in chunks ::
        chunks[k].isDirty == (old(chunks[k].isDirty) || (k == key && InChunk(lx, y, lz)))
    {
      ghost var before := View();
      chunk.SetBlockLocal(lx, y, lz, t);
      ghost var after := before[key := WriteLocal(before[key], lx, y, lz, t)];
      forall k | k in chunks
        ensures View()[k] == after[k]
      {
        if k != key {
          assert owner[chunks[k].data] != owner[chunk.data];
        }
      }
    }

    /** `setBlock`: the write of `setBlockDeferred`, after which the chunk is remeshed at once. */
    method SetBlock(x: int, y: int, z: int, t: int)
      requires Valid()
      modifies Repr - Unloaded
      ensures Valid()
      ensures View() == WriteBlock(old(View()), x, y, z, t)
      ensures Lands(chunks.Keys, x, y, z) ==>
        chunks[KeyOf(x, z)].mesh == Some(MeshOf(View()[KeyOf(x, z)])) && !chunks[KeyOf(x, z)].isDirty
      ensures forall k | k in chunks && (k != KeyOf(x, z) || !Lands(chunks.Keys, x, y, z)) ::
        chunks[k].mesh == old(chunks[k].mesh) && chunks[k].isDirty == old(chunks[k].isDirty)
    {
      var cx := FloorDiv(x, ChunkSize);
      var cz := FloorDiv(z, ChunkSize);
      var key := ChunkKey(cx, cz);
      SplitAgrees(x, y, z);
      if key !in chunks {
        return;
      }
      var chunk := chunks[key];
      var lx := x - cx * ChunkSize;
      var lz := z - cz * ChunkSize;
      if y < 0 || y >= ChunkHeight {
        return;
      }
      WriteAndRemesh(key, chunk, lx, y, lz, t);
    }

    /** The landing path of `setBlock`: the local write, then an immediate remesh. */
    method WriteAndRemesh(key: string, chunk: Chunk, lx: int, y: int, lz: int, t: int)
      requires Valid() && key in chunks && chunks[key] == chunk
      modifies chunk.data, chunk`mesh, chunk`isDirty
      ensures Valid()
      ensures View() == old(View())[key := WriteLocal(old(View())[key], lx, y, lz, t)]
      ensures chunk.mesh == Some(MeshOf(View()[key])) && !chunk.isDirty
      ensures forall k | k in chunks && k != key ::
        chunks[k].mesh == old(chunks[k].mesh) && chunks[k].isDirty == old(chunks[k].isDirty)
    {
      WriteLocalChunk(key, chunk, lx, y, lz, t);
      RemeshChunk(key, chunk);
    }

    /** `buildMesh` on the loaded chunk under `key`: it gets the mesh of its contents and is clean. */
    method RemeshChunk(key: string, chunk: Chunk)
      requires Valid() && key in chunks && chunks[key] == chunk
      modifies chunk`mesh, chunk`isDirty
      ensures Valid() && View() == old(View())
      ensures chunk.mesh == Some(MeshOf(View()[key])) && !chunk.isDirty
      ensures forall k | k in chunks && k != key ::
        chunks[k].mesh == old(chunks[k].mesh) && chunks[k].isDirty == old(chunks[k].isDirty)
    {
      var m := chunk.BuildMesh();
    }

    // -------------------------------------------------------------------------------------
    // generateTree: the nested loops of the source list their writes in the order of
    // `TreeWrites`; the writes are made one `setBlockDeferred` at a time

    /** One `setBlockDeferred`, seen as the write sequence of one element. */
    method DeferOne(w: BlockWrite, changed: seq<string>) returns (changed': seq<string>)
      requires Valid()
      modifies Repr - Unloaded
      ensures Valid()
      ensures View() == ApplyWrites(old(View()), [w])
      ensures changed' == NoteWrites(chunks.Keys, changed, [w])
      ensures forall k | k in chunks ::
        (chunks[k].isDirty == (old(chunks[k].isDirty) || k in Touched(chunks.Keys, [w])))
      ensures forall k | k in chunks :: chunks[k].mesh == old(chunks[k].mesh)
    {
      SingleWrite(View(), chunks.Keys, changed, w);
      changed' := SetBlockDeferred(w.x, w.y, w.z, w.t, changed);
    }

    /** The writes `ws`, in order, through `setBlockDeferred`. */
    method DeferAll(ws: seq<BlockWrite>, changed: seq<string>) returns (changed': seq<string>)
      requires Valid()
      modifies Repr - Unloaded
      ensures Valid()
      ensures View() == ApplyWrites(old(View()), ws)
      ensures changed' == NoteWrites(chunks.Keys, changed, ws)
      ensures forall k | k in chunks ::
        (chunks[k].isDirty == (old(chunks[k].isDirty) || k in Touched(chunks.Keys, ws)))
      ensures forall k | k in chunks :: chunks[k].mesh == old(chunks[k].mesh)
    {
      ghost var v0 := View();
      changed' := changed;
      var i := 0;
      while i < |ws|
        invariant 0 <= i <= |ws|
        invariant Valid() && chunks == old(chunks)
        invariant View() == ApplyWrites(v0, ws[..i])
        invariant changed' == NoteWrites(chunks.Keys, changed, ws[..i])
        invariant forall k | k in chunks ::
          (chunks[k].isDirty == (old(chunks[k].isDirty) || k in Touched(chunks.Keys, ws[..i])))
        invariant forall k | k in chunks :: chunks[k].mesh == old(chunks[k].mesh)
      {
        ghost var done := ws[..i];
        changed' := DeferOne(ws[i], changed');
        ApplyAppend(v0, done, [ws[i]]);
        NoteAppend(chunks.Keys, changed, done, [ws[i]]);
        TouchedAppend(chunks.Keys, done, [ws[i]]);
        assert ws[..i + 1] == done + [ws[i]];
        i := i + 1;
      }
      assert ws[..i] == ws;
    }

    /** `generateTree`: a trunk of logs, then the canopy, all through `setBlockDeferred`. */
    method GenerateTree(x: int, y: int, z: int, changed: seq<string>) returns (changed': seq<string>)
      requires Valid()
      modifies Repr - Unloaded
      ensures Valid()
      ensures View() == ApplyWrites(old(View()), TreeWrites(generator, x, y, z))
      ensures changed' == NoteWrites(chunks.Keys, changed, TreeWrites(generator, x, y, z))
      ensures forall k | k in chunks ::
        (chunks[k].isDirty == (old(chunks[k].isDirty) || k in Touched(chunks.Keys, TreeWrites(generator, x, y, z))))
      ensures forall k | k in chunks :: chunks[k].mesh == old(chunks[k].mesh)
    {
      changed' := DeferAll(TreeWrites(generator, x, y, z), changed);
    }

    // -------------------------------------------------------------------------------------
    // plantTreesInChunk and ensureChunk

    /** The tree loop of `plantTreesInChunk`: every tree of chunk (cx, cz), first to last. */
    method PlantTrees(cx: int, cz: int) returns (changed: seq<string>)
      requires Valid()
      modifies Repr - Unloaded
      ensures Valid()
      ensures View() == ApplyWrites(old(View()), PlantWrites(generator, cx, cz))
      ensures changed == NoteWrites(chunks.Keys, [], PlantWrites(generator, cx, cz))
      ensures forall k | k in chunks ::
        (chunks[k].isDirty == (old(chunks[k].isDirty) || k in Touched(chunks.Keys, PlantWrites(generator, cx, cz))))
      ensures forall k | k in chunks :: chunks[k].mesh == old(chunks[k].mesh)
    {
      ghost var v0 := View();
      var trees := TreeCount(generator.treeSine(cx, cz));
      changed := [];
      var i := 0;
      while i < trees
        invariant 0 <= i <= trees
        invariant Valid() && chunks == old(chunks)
        invariant View() == ApplyWrites(v0, PlantPrefix(generator, cx, cz, i))
        invariant changed == NoteWrites(chunks.Keys, [], PlantPrefix(generator, cx, cz, i))
        invariant forall k | k in chunks ::
          (chunks[k].isDirty == (old(chunks[k].isDirty) || k in Touched(chunks.Keys, PlantPrefix(generator, cx, cz, i))))
        invariant forall k | k in chunks :: chunks[k].mesh == old(chunks[k].mesh)
      {
        ghost var done := PlantPrefix(generator, cx, cz, i);
        var base := TreeBase(generator, cx, cz, i);
        changed := GenerateTree(base.x, base.y, base.z, changed);
        ghost var tree := TreeWrites(generator, base.x, base.y, base.z);
        ApplyAppend(v0, done, tree);
        NoteAppend(chunks.Keys, [], done, tree);
        TouchedAppend(chunks.Keys, done, tree);
        i := i + 1;
      }
    }

    /** The key loop of `plantTreesInChunk`: mark each changed chunk dirty and queue it once. */
    method MarkChanged(keys: seq<string>)
      requires Valid()
      modifies this`toBuild, (set k | k in chunks :: chunks[k])`isDirty
      ensures Valid()
      ensures toBuild == QueueChanged(old(toBuild), chunks, keys)
      ensures forall k | k in chunks :: chunks[k].isDirty == (old(chunks[k].isDirty) || k in keys)
    {
      var i := 0;
      while i < |keys|
        invariant 0 <= i <= |keys|
        invariant Valid()
        invariant toBuild == QueueChanged(old(toBuild), chunks, keys[..i])
        invariant forall k | k in chunks :: chunks[k].isDirty == (old(chunks[k].isDirty) || k in keys[..i])
      {
        assert Init(keys[..i + 1]) == keys[..i] && Last(keys[..i + 1]) == keys[i];
        assert forall k :: k in keys[..i + 1] <==> k in keys[..i] || k == keys[i];
        MarkOne(keys[i]);
        i := i + 1;
      }
      assert keys[..i] == keys;
    }

    /** One pass of that loop: the chunk under `key`, when loaded, is dirty and queued once. */
    method MarkOne(key: string)
      requires Valid()
      modifies this`toBuild, (set k | k in chunks :: chunks[k])`isDirty
      ensures Valid()
      ensures toBuild == if key in chunks && chunks[key] !in old(toBuild)
        then old(toBuild) + [chunks[key]] else old(toBuild)
      ensures forall k | k in chunks :: chunks[k].isDirty == (old(chunks[k].isDirty) || k == key)
    {
      if key in chunks {
        var ch := chunks[key];
        ch.isDirty := true;
        if ch !in toBuild {
          assert KeyedAt(key, ch);
          toBuild := toBuild + [ch];
        }
      }
    }

    /**
     * `plantTreesInChunk`: the trees of `chunk` are written, then every chunk they reached is
     * marked dirty and queued for a mesh unless already queued.
     */
    method PlantTreesInChunk(chunk: Chunk)
      requires Valid()
      modifies Repr - Unloaded, this`toBuild
      ensures Valid()
      ensures View() == ApplyWrites(old(View()), PlantWrites(generator, chunk.chunkX, chunk.chunkZ))
      ensures forall k | k in chunks ::
        (chunks[k].isDirty == (old(chunks[k].isDirty)
                               || k in Touched(chunks.Keys, PlantWrites(generator, chunk.chunkX, chunk.chunkZ))))
      ensures forall k | k in chunks :: chunks[k].mesh == old(chunks[k].mesh)
      ensures toBuild == QueueChanged(old(toBuild), chunks,
                                      NoteWrites(chunks.Keys, [], PlantWrites(generator, chunk.chunkX, chunk.chunkZ)))
      ensures forall k | k in Touched(chunks.Keys, PlantWrites(generator, chunk.chunkX, chunk.chunkZ)) ::
        k in chunks && chunks[k] in toBuild
    {
      ghost var writes := PlantWrites(generator, chunk.chunkX, chunk.chunkZ);
      var changed := PlantTrees(chunk.chunkX, chunk.chunkZ);
      NoteWritesContents(chunks.Keys, [], writes);
      TouchedLoaded(chunks.Keys, writes);
      QueueChangedContents(toBuild, chunks, changed);
      MarkChanged(changed);
    }

    /** The world's footprint takes in a new chunk and its storage. */
    method Adopt(chunk: Chunk)
      requires Valid()
      modifies this`Repr
      ensures Valid()
      ensures Repr == old(Repr) + {chunk, chunk.data}
    {
      Repr := Repr + {chunk, chunk.data};
    }

    /** `chunks.set(key, chunk)` for a chunk the world did not hold. */
    method Register(key: string, chunk: Chunk)
      requires Valid() && key !in chunks && KeyedAt(key, chunk)
      requires chunk.Valid() && chunk.generator == generator
      requires chunk in Repr && chunk.data in Repr && chunk.data !in owner && chunk !in Unloaded
      modifies this`chunks, this`owner
      ensures Valid()
      ensures chunks == old(chunks)[key := chunk]
      ensures View() == old(View())[key := chunk.Cells()]
    {
      ghost var before := View();
      chunks := chunks[key := chunk];
      owner := owner[chunk.data := key];
      forall k | k in chunks
        ensures View()[k] == before[key := chunk.Cells()][k]
      {
        if k != key {
          assert chunks[k] == old(chunks)[k];
        }
      }
      forall c | c in toBuild && c !in Unloaded
        ensures Holds(c)
      {
        assert old(Holds(c));
      }
    }

    /** A new chunk (cx, cz), filled from the generator, loaded under its key and queued. */
    method AddChunk(cx: int, cz: int) returns (chunk: Chunk)
      requires Valid() && ChunkKey(cx, cz) !in chunks
      modifies this`Repr, this`chunks, this`owner, this`toBuild
      ensures Valid()
      ensures fresh(chunk) && chunk.chunkX == cx && chunk.chunkZ == cz
      ensures chunk.isDirty && chunk.mesh == None
      ensures chunks == old(chunks)[ChunkKey(cx, cz) := chunk]
      ensures View() == old(View())[ChunkKey(cx, cz) := GeneratedCells(generator, cx, cz)]
      ensures toBuild == old(toBuild) + [chunk]
      ensures Repr == old(Repr) + {chunk, chunk.data} && fresh(chunk.data)
    {
      ghost var before := View();
      chunk := new Chunk(cx, cz, generator);
      assert View() == before;
      Adopt(chunk);
      assert View() == before;
      Register(ChunkKey(cx, cz), chunk);
      Enqueue(chunk);
    }

    /** The missing-chunk path of `ensureChunk`: a new chunk is filled, loaded, queued and decorated. */
    method CreateChunk(cx: int, cz: int) returns (chunk: Chunk)
      requires Valid() && ChunkKey(cx, cz) !in chunks
      modifies this, Repr - Unloaded
      ensures Valid()
      ensures Unloaded == old(Unloaded)
      ensures chunks == old(chunks)[ChunkKey(cx, cz) := chunk]
      ensures chunk.chunkX == cx && chunk.chunkZ == cz
      ensures Repr == old(Repr) + {chunk, chunk.data} && fresh(chunk.data)
      ensures fresh(chunk) && chunk.isDirty && chunk.mesh == None
      ensures View() == ApplyWrites(old(View())[ChunkKey(cx, cz) := GeneratedCells(generator, cx, cz)],
                                    PlantWrites(generator, cx, cz))
      ensures toBuild == QueueChanged(old(toBuild) + [chunk], chunks,
                                      NoteWrites(chunks.Keys, [], PlantWrites(generator, cx, cz)))
      ensures forall k | k in old(chunks) ::
                k in chunks && chunks[k].mesh == old(chunks[k].mesh)
                && chunks[k].isDirty == (old(chunks[k].isDirty) || k in Touched(chunks.Keys, PlantWrites(generator, cx, cz)))
    {
      chunk := AddChunk(cx, cz);
      ghost var key := ChunkKey(cx, cz);
      assert key in chunks && chunks[key] == chunk;
      PlantTreesInChunk(chunk);
      assert chunks[key].isDirty && chunks[key].mesh == None;
    }

    /**
     * `ensureChunk`: the loaded chunk (cx, cz), or else a new one that is filled, loaded,
     * queued and decorated with its trees.
     */
    method EnsureChunk(cx: int, cz: int) returns (chunk: Chunk)
      requires Valid()
      modifies this, Repr - Unloaded
      ensures Valid()
      ensures Unloaded == old(Unloaded)
      ensures ChunkKey(cx, cz) in chunks && chunks[ChunkKey(cx, cz)] == chunk
      ensures chunk.chunkX == cx && chunk.chunkZ == cz
      ensures chunks.Keys == old(chunks.Keys) + {ChunkKey(cx, cz)}
      ensures forall k | k in old(chunks) :: chunks[k] == old(chunks[k]) && chunks[k].mesh == old(chunks[k].mesh)
      ensures old(Repr) <= Repr && fresh(Repr - old(Repr))
      ensures ChunkKey(cx, cz) !in old(chunks) ==> fresh(chunk)
      ensures View() == EnsureView(generator, old(View()), cx, cz)
      ensures Loaded() == EnsureStep(generator, chunks, old(Loaded()), cx, cz)
    {
      var key := ChunkKey(cx, cz);
      if key in chunks {
        chunk := chunks[key];
        assert KeyedAt(key, chunk);
        ChunkKeyInjective(cx, cz, chunk.chunkX, chunk.chunkZ);
        return;
      }
      ghost var s0 := Loaded();
      chunk := CreateChunk(cx, cz);
      TouchedLoaded(chunks.Keys, PlantWrites(generator, cx, cz));
      CreatedFlags(key, Touched(chunks.Keys, PlantWrites(generator, cx, cz)), old(chunks), old(DirtyKeys()), old(MeshlessKeys()));
      EnsureStepNew(generator, chunks, s0, cx, cz, Loaded());
    }

    /**
     * The dirty and meshless keys after a chunk is created under `key` and the chunks under
     * `touched` are marked dirty, no mesh changing.
     */
    lemma CreatedFlags(key: string, touched: set<string>, before: map<string, Chunk>,
                       wasDirty: set<string>, wasMeshless: set<string>)
      requires key !in before && chunks.Keys == before.Keys + {key} && touched <= chunks.Keys
      requires wasDirty <= before.Keys && wasMeshless <= before.Keys
      requires chunks[key].isDirty && chunks[key].mesh.None?
      requires forall k | k in before ::
        (chunks[k].mesh.None? <==> k in wasMeshless) && (chunks[k].isDirty <==> k in wasDirty || k in touched)
      ensures DirtyKeys() == wasDirty + {key} + touched
      ensures MeshlessKeys() == wasMeshless + {key}
    {
    }

    // -------------------------------------------------------------------------------------
    // updateStreaming

    /** The unload loop of `updateStreaming`: every chunk beyond the unload distance leaves. */
    method UnloadFar(pcx: int, pcz: int)
      requires Valid()
      modifies this`chunks, this`Unloaded
      ensures Valid()
      ensures forall c | c in old(toBuild) && !Holds(c) :: c in Unloaded
      ensures chunks.Keys <= old(chunks).Keys
      ensures forall k | k in old(chunks) ::
        (k in chunks <==> Cheb(old(chunks)[k].chunkX - pcx, old(chunks)[k].chunkZ - pcz) <= UnloadDistanceChunks)
      ensures forall k | k in chunks :: chunks[k] == old(chunks)[k] && chunks[k].mesh == old(chunks[k].mesh)
      ensures Loaded() == Kept(old(Loaded()), chunks.Keys)
    {
      ghost var far := set k | k in chunks && Cheb(chunks[k].chunkX - pcx, chunks[k].chunkZ - pcz) > UnloadDistanceChunks;
      var keys := chunks.Keys;
      while keys != {}
        invariant keys <= old(chunks).Keys
        invariant Valid()
        invariant chunks == old(chunks) - (far - keys)
        decreases keys
      {
        var key :| key in keys;
        var chunk := chunks[key];
        DropOne(old(chunks), far, keys, key);
        if Cheb(chunk.chunkX - pcx, chunk.chunkZ - pcz) > UnloadDistanceChunks {
          Unregister(key);
        }
        keys := keys - {key};
      }
      RestrictedFlags(old(chunks), old(DirtyKeys()), old(MeshlessKeys()));
    }

    /** The dirty and meshless keys after chunks are dropped from `before`, no flag changing. */
    lemma RestrictedFlags(before: map<string, Chunk>, wasDirty: set<string>, wasMeshless: set<string>)
      requires chunks.Keys <= before.Keys && forall k | k in chunks :: chunks[k] == before[k]
      requires forall k | k in before :: (before[k].isDirty <==> k in wasDirty) && (before[k].mesh.None? <==> k in wasMeshless)
      ensures DirtyKeys() == wasDirty * chunks.Keys
      ensures MeshlessKeys() == wasMeshless * chunks.Keys
    {
    }

    /** `chunks.delete(key)`: the world stops holding the chunk under `key`. */
    method Unregister(key: string)
      requires Valid()
      modifies this`chunks, this`Unloaded
      ensures Valid()
      ensures chunks == old(chunks) - {key}
    {
      if key in chunks {
        var gone := chunks[key];
        forall k | k in chunks && k != key
          ensures chunks[k] != gone
        {
          assert owner[chunks[k].data] != owner[gone.data];
        }
        Unloaded := Unloaded + {gone};
      }
      chunks := chunks - {key};
    }

    /** `toBuild.push(chunk)`: a chunk of the world joins the back of the build queue. */
    method Enqueue(chunk: Chunk)
      requires Valid() && chunk.Valid() && chunk in Repr && Holds(chunk)
      modifies this`toBuild
      ensures Valid()
      ensures toBuild == old(toBuild) + [chunk]
      ensures View() == old(View())
      ensures Loaded() == old(Loaded()).(queue := toBuild)
    {
      toBuild := toBuild + [chunk];
    }

    /** The keys of the loaded chunks whose dirty flag is set. */
    ghost function DirtyKeys(): set<string>
      reads this`chunks, chunks.Values
    {
      set k | k in chunks && chunks[k].isDirty
    }

    /** The keys of the loaded chunks without a mesh. */
    ghost function MeshlessKeys(): set<string>
      reads this`chunks, chunks.Values
    {
      set k | k in chunks && chunks[k].mesh.None?
    }

    /** The state the load loop works on, read off the world. */
    ghost function Loaded(): Loading
      reads this`chunks, this`toBuild, chunks.Values
    {
      Loading(chunks.Keys, toBuild, DirtyKeys(), MeshlessKeys())
    }

    /**
     * One pass of the load loop: ensure chunk (cx, cz), and queue it again while dirty and
     * meshless.  The world moves on as `LoadStep` says, and no loaded chunk's mesh changes.
     */
    method LoadOne(cx: int, cz: int)
      requires Valid()
      modifies this, Repr - Unloaded
      ensures Valid()
      ensures Unloaded == old(Unloaded)
      ensures chunks.Keys == old(chunks.Keys) + {ChunkKey(cx, cz)}
      ensures forall k | k in old(chunks) :: chunks[k] == old(chunks[k]) && chunks[k].mesh == old(chunks[k].mesh)
      ensures old(Repr) <= Repr && fresh(Repr - old(Repr))
      ensures View() == EnsureView(generator, old(View()), cx, cz)
      ensures Loaded() == LoadStep(generator, chunks, old(Loaded()), cx, cz)
    {
      ghost var s0 := Loaded();
      var chunk := EnsureChunk(cx, cz);
      ghost var e := Loaded();
      Requeue(ChunkKey(cx, cz), chunk);
      LoadStepAfter(generator, chunks, s0, cx, cz, e, toBuild);
    }

    /** The push after `ensureChunk` in the load loop: the chunk is queued again while dirty and meshless. */
    method Requeue(ghost key: string, chunk: Chunk)
      requires Valid() && key in chunks && chunks[key] == chunk
      modifies this`toBuild
      ensures Valid()
      ensures View() == old(View())
      ensures forall k | k in chunks :: chunks[k].mesh == old(chunks[k].mesh)
      ensures Loaded() == old(Loaded()).(queue := old(toBuild) +
        if key in old(DirtyKeys()) && key in old(MeshlessKeys()) then [chunk] else [])
    {
      if chunk.isDirty && chunk.mesh.None? {
        assert KeyedAt(key, chunk);
        Enqueue(chunk);
      }
    }

    /**
     * The load loop of `updateStreaming` over a list of offsets: every chunk at one of them is
     * ensured, and one that is dirty and has no mesh yet is queued again.  The world moves on
     * as `LoadFold` says, and no loaded chunk's mesh changes.
     */
    method LoadOffsets(pcx: int, pcz: int, coords: seq<(int, int)>)
      requires Valid()
      modifies this, Repr - Unloaded
      ensures Valid()
      ensures Unloaded == old(Unloaded)
      ensures forall k | k in old(chunks) ::
        k in chunks && chunks[k] == old(chunks[k]) && chunks[k].mesh == old(chunks[k].mesh)
      ensures forall k | k in chunks :: k in old(chunks) || k in OffsetKeys(pcx, pcz, coords)
      ensures forall k | k in OffsetKeys(pcx, pcz, coords) :: k in chunks
      ensures old(Repr) <= Repr && fresh(Repr - old(Repr))
      ensures Loaded() == LoadFold(generator, chunks, old(Loaded()), pcx, pcz, coords)
    {
      ghost var s0 := Loaded();
      ghost var prefix: seq<(int, int)> := [];
      var i := 0;
      while i < |coords|
        invariant 0 <= i <= |coords| && prefix == coords[..i]
        invariant Valid() && Unloaded == old(Unloaded)
        invariant forall k | k in old(chunks) ::
          k in chunks && chunks[k] == old(chunks[k]) && chunks[k].mesh == old(chunks[k].mesh)
        invariant forall k | k in OffsetKeys(pcx, pcz, prefix) :: k in chunks
        invariant old(Repr) <= Repr && fresh(Repr - old(Repr))
        invariant Loaded() == LoadFold(generator, chunks, s0, pcx, pcz, prefix)
      {
        LoadNext(s0, prefix, pcx, pcz, coords[i]);
        TakeOneMore(coords, i);
        prefix := prefix + [coords[i]];
        i := i + 1;
      }
      assert coords[..i] == coords;
    }

    /** One pass of the load loop, in terms of the loop over the offsets done so far. */
    method LoadNext(ghost s0: Loading, ghost prefix: seq<(int, int)>, pcx: int, pcz: int, c: (int, int))
      requires Valid() && s0.keys <= chunks.Keys
      requires forall k | k in OffsetKeys(pcx, pcz, prefix) :: k in chunks
      requires Loaded() == LoadFold(generator, chunks, s0, pcx, pcz, prefix)
      modifies this, Repr - Unloaded
      ensures Valid()
      ensures Unloaded == old(Unloaded)
      ensures forall k | k in old(chunks) ::
        k in chunks && chunks[k] == old(chunks[k]) && chunks[k].mesh == old(chunks[k].mesh)
      ensures old(Repr) <= Repr && fresh(Repr - old(Repr))
      ensures forall k | k in OffsetKeys(pcx, pcz, prefix + [c]) :: k in chunks
      ensures Loaded() == LoadFold(generator, chunks, s0, pcx, pcz, prefix + [c])
    {
      ghost var before := chunks;
      LoadOne(pcx + c.0, pcz + c.1);
      LoadPrefixStep(generator, before, chunks, s0, pcx, pcz, prefix, c);
    }

    /**
     * The whole load pass: the offsets of `iterateNeighborhood(radius)` are listed and loaded in
     * that order, so the chunks added are exactly the missing ones at those offsets.
     */
    method LoadNear(pcx: int, pcz: int, radius: int)
      requires Valid()
      modifies this, Repr - Unloaded
      ensures Valid()
      ensures Unloaded == old(Unloaded)
      ensures forall k | k in old(chunks) ::
        k in chunks && chunks[k] == old(chunks[k]) && chunks[k].mesh == old(chunks[k].mesh)
      ensures forall k | k in chunks :: k in old(chunks) || k in OffsetKeys(pcx, pcz, Neighborhood(radius))
      ensures old(Repr) <= Repr && fresh(Repr - old(Repr))
      ensures forall k | k in OffsetKeys(pcx, pcz, Neighborhood(radius)) :: k in chunks
      ensures Loaded() == LoadFold(generator, chunks, old(Loaded()), pcx, pcz, Neighborhood(radius))
    {
      var coords := IterateNeighborhood(radius);
      LoadOffsets(pcx, pcz, coords);
    }

    /**
     * A chunk is loaded exactly when it sits under its own key, so a queued chunk that is not
     * loaded is one of the dropped chunks, which the writes and loads leave alone.
     */
    lemma QueuedUnloaded(c: Chunk)
      requires Valid()
      ensures Holds(c) <==> c in chunks.Values
      ensures c in toBuild && c !in chunks.Values ==> c in Unloaded
    {
      if c in chunks.Values {
        var k :| k in chunks && chunks[k] == c;
        assert KeyedAt(k, c);
      }
      if c in toBuild && c !in Unloaded {
        var i :| 0 <= i < |toBuild| && toBuild[i] == c;
        assert Holds(toBuild[i]);
      }
    }

    /** The dirty chunks in the build queue. */
    ghost function QueuedDirty(): set<Chunk>
      reads this, toBuild
    {
      set c | c in toBuild && c.isDirty
    }

    /** One pass of the drain loop: the front entry leaves the queue and is rebuilt if dirty. */
    method TakeFront() returns (chunk: Chunk, rebuilt: bool)
      requires Valid() && |toBuild| > 0
      modifies this`toBuild, toBuild[0]
      ensures Valid()
      ensures chunk == old(toBuild[0]) && toBuild == old(toBuild[1..])
      ensures rebuilt == old(chunk.isDirty)
      ensures rebuilt ==> chunk.Built()
      ensures !rebuilt ==> unchanged(chunk)
    {
      chunk := toBuild[0];
      toBuild := toBuild[1..];
      rebuilt := chunk.isDirty;
      if rebuilt {
        var m := chunk.BuildMesh();
      }
    }

    /**
     * One pass of the drain loop: the front entry leaves the queue and is rebuilt if dirty.  In
     * terms of the ghost bookkeeping of `DrainQueue`, `dirty` and `built` move on as `Drain`
     * does, and the chunks outside `built` keep their mesh and flag.
     */
    method DrainStep(ghost q0: seq<Chunk>, ghost dirty: set<Chunk>, ghost built: seq<Chunk>, builds: nat)
      returns (builds': nat, ghost dirty': set<Chunk>, ghost built': seq<Chunk>)
      requires Valid() && |toBuild| > 0 && builds < BuildsPerUpdate && builds == |built|
      requires forall c | c in toBuild :: c in q0
      requires forall c | c in toBuild :: (c.isDirty <==> c in dirty)
      requires forall c | c in built :: c in q0 && c.Built()
      modifies this`toBuild, toBuild[0]
      ensures Valid()
      ensures toBuild == old(toBuild[1..])
      ensures forall c | c in toBuild :: c in q0
      ensures builds' == |built'| <= BuildsPerUpdate
      ensures (Drain(old(toBuild), dirty, BuildsPerUpdate - builds).0,
               built + Drain(old(toBuild), dirty, BuildsPerUpdate - builds).1)
        == (Drain(toBuild, dirty', BuildsPerUpdate - builds').0,
            built' + Drain(toBuild, dirty', BuildsPerUpdate - builds').1)
      ensures forall c | c in toBuild :: (c.isDirty <==> c in dirty')
      ensures forall c | c in built :: c in built'
      ensures forall c | c in built' :: c in q0 && c.Built()
      ensures forall c | c in q0 && c !in built' :: c.mesh == old(c.mesh) && c.isDirty == old(c.isDirty)
    {
      ghost var q := toBuild;
      assert forall c | c in q[1..] :: c in q;
      var chunk, rebuilt := TakeFront();
      if rebuilt {
        DrainTakeDirty(q, dirty, BuildsPerUpdate - builds, built);
        builds', dirty', built' := builds + 1, dirty - {chunk}, built + [chunk];
      } else {
        builds', dirty', built' := builds, dirty, built;
      }
    }

    /**
     * The drain loop of `updateStreaming`: entries leave the queue front first and dirty ones
     * are rebuilt, until the queue is empty or two meshes were built.
     */
    method DrainQueue() returns (builds: nat)
      requires Valid()
      modifies this`toBuild, toBuild
      ensures Valid()
      ensures toBuild == old(Drain(toBuild, QueuedDirty(), BuildsPerUpdate)).0
      ensures builds == |old(Drain(toBuild, QueuedDirty(), BuildsPerUpdate)).1|
      ensures forall c | c in old(Drain(toBuild, QueuedDirty(), BuildsPerUpdate)).1 :: c.Built()
      ensures forall c | c in old(toBuild) && c !in old(Drain(toBuild, QueuedDirty(), BuildsPerUpdate)).1 ::
        c.mesh == old(c.mesh) && c.isDirty == old(c.isDirty)
      ensures forall k | k in chunks && chunks[k] !in old(Drain(toBuild, QueuedDirty(), BuildsPerUpdate)).1 ::
        chunks[k].mesh == old(chunks[k].mesh) && (chunks[k].isDirty <==> k in old(DirtyKeys()))
        && (chunks[k].mesh.None? <==> k in old(MeshlessKeys()))
      ensures builds <= BuildsPerUpdate && (builds < BuildsPerUpdate ==> toBuild == [])
    {
      ghost var dirty := QueuedDirty();
      ghost var built: seq<Chunk> := [];
      ghost var d0 := Drain(toBuild, dirty, BuildsPerUpdate);
      builds := 0;
      assert built + Drain(toBuild, dirty, BuildsPerUpdate).1 == Drain(toBuild, dirty, BuildsPerUpdate).1;
      while |toBuild| > 0 && builds < BuildsPerUpdate
        invariant Valid()
        invariant builds == |built| <= BuildsPerUpdate
        invariant forall c | c in toBuild :: c in old(toBuild)
        invariant d0
          == (Drain(toBuild, dirty, BuildsPerUpdate - builds).0, built + Drain(toBuild, dirty, BuildsPerUpdate - builds).1)
        invariant forall c | c in toBuild :: (c.isDirty <==> c in dirty)
        invariant forall c | c in built :: c in old(toBuild)
        invariant forall c | c in built :: c.Built()
        invariant forall c | c in old(toBuild) && c !in built :: c.mesh == old(c.mesh) && c.isDirty == old(c.isDirty)
        decreases |toBuild|
      {
        assert toBuild[0] in toBuild;
        builds, dirty, built := DrainStep(old(toBuild), dirty, built, builds);
      }
    }

    /** The two streaming loops: unload the far chunks, then load the neighbourhood. */
    method Stream(pcx: int, pcz: int, radius: int)
      requires Valid() && radius <= UnloadDistanceChunks
      modifies this, Repr
      ensures Valid()
      ensures Streamed(old(chunks), chunks, pcx, pcz, radius)
      ensures old(Repr) <= Repr && fresh(Repr - old(Repr))
      ensures forall c | c in old(toBuild) && !Holds(c) :: c.isDirty == old(c.isDirty) && c.mesh == old(c.mesh)
      ensures forall k | k in old(chunks) && k in chunks :: chunks[k].mesh == old(chunks[k].mesh)
      ensures forall k | k in OffsetKeys(pcx, pcz, Neighborhood(radius)) :: k in chunks
      ensures Loaded() == LoadFold(generator, chunks, Kept(old(Loaded()), old(chunks).Keys * chunks.Keys),
                                   pcx, pcz, Neighborhood(radius))
    {
      UnloadFar(pcx, pcz);
      ghost var mid := chunks;
      ghost var kept := Loaded();
      LoadNear(pcx, pcz, radius);
      StreamBounds(old(chunks), mid, chunks, pcx, pcz, radius);
      assert kept == Kept(old(Loaded()), old(chunks).Keys * chunks.Keys);
    }

    /**
     * The three loops of `updateStreaming` around chunk (pcx, pcz), loading within `radius`.
     * `loaded` is the bookkeeping after the two streaming loops (the loads folded over the
     * neighbourhood, starting from what the unload loop kept), `dirty` the queued chunks that
     * were dirty then, and `built` the chunks the drain loop rebuilt.
     */
    method StreamAndBuild(pcx: int, pcz: int, radius: int)
      returns (builds: nat, ghost loaded: Loading, ghost dirty: set<Chunk>, ghost built: seq<Chunk>)
      requires Valid() && radius <= UnloadDistanceChunks
      modifies this, Repr
      ensures Valid()
      ensures Streamed(old(chunks), chunks, pcx, pcz, radius)
      ensures forall k | k in OffsetKeys(pcx, pcz, Neighborhood(radius)) :: k in chunks
      ensures loaded == LoadFold(generator, chunks, Kept(old(Loaded()), old(chunks).Keys * chunks.Keys),
                                 pcx, pcz, Neighborhood(radius))
      ensures forall c | c in dirty :: c in loaded.queue
      ensures forall k | k in chunks && chunks[k] in loaded.queue :: (chunks[k] in dirty <==> k in loaded.dirty)
      ensures toBuild == Drain(loaded.queue, dirty, BuildsPerUpdate).0
      ensures built == Drain(loaded.queue, dirty, BuildsPerUpdate).1 && builds == |built|
      ensures forall c | c in built :: c.Built()
      ensures forall k | k in chunks && chunks[k] !in built ::
        (chunks[k].isDirty <==> k in loaded.dirty) && (chunks[k].mesh.None? <==> k in loaded.meshless)
      ensures forall k | k in old(chunks) && k in chunks && chunks[k] !in built ::
        chunks[k].mesh == old(chunks[k].mesh)
      ensures forall c | c in loaded.queue && c !in chunks.Values ::
        c in old(toBuild) && (c in dirty <==> old(c.isDirty))
        && (c !in built ==> c.isDirty == old(c.isDirty) && c.mesh == old(c.mesh))
      ensures builds <= BuildsPerUpdate
      ensures builds < BuildsPerUpdate ==> toBuild == []
    {
      Stream(pcx, pcz, radius);
      LoadFoldKeepsUnloaded(generator, chunks, Kept(old(Loaded()), old(chunks).Keys * chunks.Keys),
                            pcx, pcz, Neighborhood(radius));
      loaded := Loaded();
      dirty := QueuedDirty();
      built := Drain(toBuild, dirty, BuildsPerUpdate).1;
      builds := DrainQueue();
    }

    /**
     * `updateStreaming`: unload far chunks, load every chunk of the neighbourhood, then build
     * at most two queued meshes.
     */
    method UpdateStreaming(px: real, pz: real)
      returns (builds: nat, ghost loaded: Loading, ghost dirty: set<Chunk>, ghost built: seq<Chunk>)
      requires Valid()
      modifies this, Repr
      ensures Valid()
      ensures Streamed(old(chunks), chunks, PlayerChunk(px), PlayerChunk(pz), LoadDistanceChunks)
      ensures forall k | k in OffsetKeys(PlayerChunk(px), PlayerChunk(pz), Neighborhood(LoadDistanceChunks)) ::
        k in chunks
      ensures loaded == LoadFold(generator, chunks, Kept(old(Loaded()), old(chunks).Keys * chunks.Keys),
                                 PlayerChunk(px), PlayerChunk(pz), Neighborhood(LoadDistanceChunks))
      ensures forall c | c in dirty :: c in loaded.queue
      ensures forall k | k in chunks && chunks[k] in loaded.queue :: (chunks[k] in dirty <==> k in loaded.dirty)
      ensures toBuild == Drain(loaded.queue, dirty, BuildsPerUpdate).0
      ensures built == Drain(loaded.queue, dirty, BuildsPerUpdate).1 && builds == |built|
      ensures forall c | c in built :: c.Built()
      ensures forall k | k in chunks && chunks[k] !in built ::
        (chunks[k].isDirty <==> k in loaded.dirty) && (chunks[k].mesh.None? <==> k in loaded.meshless)
      ensures forall k | k in old(chunks) && k in chunks && chunks[k] !in built ::
        chunks[k].mesh == old(chunks[k].mesh)
      ensures forall c | c in loaded.queue && c !in chunks.Values ::
        c in old(toBuild) && (c in dirty <==> old(c.isDirty))
        && (c !in built ==> c.isDirty == old(c.isDirty) && c.mesh == old(c.mesh))
      ensures builds <= BuildsPerUpdate
      ensures builds < BuildsPerUpdate ==> toBuild == []
    {
      builds, loaded, dirty, built := StreamAndBuild(PlayerChunk(px), PlayerChunk(pz), LoadDistanceChunks);
    }
  }
}
