/**
 * `BotMapDataMgr`: the per-grid caches in front of the terrain files and the
 * vmap manager, the grid file name, and the `MapCoord` key they are stored
 * under. The grid a point falls in (a float computation), the file
 * contents, the vmap manager and the heights it answers are parameters.
 */
module MapData {
  import opened Wrappers
  import opened Bytes

  /** A grid of a map: `MapCoord`, three `uint32`s. */
  datatype MapCoord = MapCoord(mapId: nat, x: nat, y: nat)

  predicate InRange32(c: MapCoord)
  {
    c.mapId < U32 && c.x < U32 && c.y < U32
  }

  // ---------------------------------------------------------------------------
  // The key order

  /** `MapCoord::operator<` as written: less in map id, less in x, and greater in y, all three. */
  function LessAsWritten(a: MapCoord, b: MapCoord): (r: bool)
    ensures r <==> a.mapId < b.mapId && a.x < b.x && a.y > b.y
  {
    if b.mapId <= a.mapId then false
    else if b.x <= a.x then false
    else a.y > b.y
  }

  /** Neither key is less than the other: `std::map` treats them as the same key. */
  predicate SameKey(a: MapCoord, b: MapCoord)
  {
    !LessAsWritten(a, b) && !LessAsWritten(b, a)
  }

  /** Every grid of one map is the same key as every other, whatever x and y. */
  lemma OneMapOneKey(a: MapCoord, b: MapCoord)
    requires a.mapId == b.mapId
    ensures SameKey(a, b) && !LessAsWritten(a, a)
  {
  }

  /**
   * The order as written is not a strict weak ordering: (0, 0, 1) and
   * (0, 5, 0) are the same key, so are (0, 5, 0) and (1, 1, 0), and yet
   * (0, 0, 1) is less than (1, 1, 0).
   */
  lemma AsWrittenNotStrictWeak()
    ensures var a, b, c := MapCoord(0, 0, 1), MapCoord(0, 5, 0), MapCoord(1, 1, 0);
      SameKey(a, b) && SameKey(b, c) && LessAsWritten(a, c)
  {
  }

  /**
   * `find` on a cache of one entry, under the order as written: it answers
   * with the entry when the key is neither less nor greater than it.
   */
  function FindOneAsWritten(entry: MapCoord, c: MapCoord): (r: Option<MapCoord>)
    ensures r.Some? ==> r.value == entry
  {
    if !LessAsWritten(entry, c) && !LessAsWritten(c, entry) then Some(entry) else None
  }

  /** Once any grid of a map is cached, every other grid of that map is answered with it. */
  lemma CachedGridAnswersWholeMap(entry: MapCoord, c: MapCoord)
    requires entry.mapId == c.mapId
    ensures FindOneAsWritten(entry, c) == Some(entry)
  {
  }

  /** The evidently intended order: lexicographic on (map, x, y). */
  function Less(a: MapCoord, b: MapCoord): bool
  {
    a.mapId < b.mapId || (a.mapId == b.mapId && (a.x < b.x || (a.x == b.x && a.y < b.y)))
  }

  /** It is a strict total order, so two keys are the same key exactly when they are equal. */
  lemma LessStrictTotal(a: MapCoord, b: MapCoord, c: MapCoord)
    ensures !Less(a, a)
    ensures Less(a, b) && Less(b, c) ==> Less(a, c)
    ensures a != b <==> Less(a, b) || Less(b, a)
  {
  }

  // ---------------------------------------------------------------------------
  // The grid file name

  function Digit(d: nat): char
    requires d < 10
  {
    ('0' as int + d) as char
  }

  predicate IsDigits(s: string)
  {
    forall i :: 0 <= i < |s| ==> '0' <= s[i] <= '9'
  }

  /** n in decimal, without leading zeros. */
  function Decimal(n: nat): (r: string)
    ensures |r| >= 1 && IsDigits(r)
  {
    if n < 10 then [Digit(n)] else Decimal(n / 10) + [Digit(n % 10)]
  }

  /** The number a string of decimal digits spells. */
  function Value(s: string): nat
    requires IsDigits(s)
  {
    if s == [] then 0 else 10 * Value(s[..|s| - 1]) + (s[|s| - 1] as int - '0' as int)
  }

  function Pow10(w: nat): (r: nat)
    ensures r >= 1
  {
    if w == 0 then 1 else 10 * Pow10(w - 1)
  }

  function ZeroChars(k: nat): (r: string)
    ensures |r| == k && IsDigits(r)
  {
    seq(k, _ => '0')
  }

  /** `%0wu`: n in decimal, zero-padded on the left to at least w digits. */
  function Padded(n: nat, w: nat): (r: string)
    ensures IsDigits(r)
  {
    var d := Decimal(n);
    if |d| < w then ZeroChars(w - |d|) + d else d
  }

  /** The whole name `"maps/%03u%02u%02u.map"` formats. */
  function Formatted(c: MapCoord): string
  {
    "maps/" + Padded(c.mapId, 3) + Padded(c.x, 2) + Padded(c.y, 2) + ".map"
  }

  /**
   * The name the cache probes. The buffer is sized for the format string
   * (21 characters and a NUL), so `snprintf` keeps at most 21 characters;
   * the rest of the buffer is NUL and ends the name.
   */
  function GridFileName(c: MapCoord): (r: string)
    ensures |r| <= 21 && r <= Formatted(c)
    ensures |Formatted(c)| <= 21 <==> r == Formatted(c)
  {
    var f := Formatted(c);
    if |f| <= 21 then f else f[..21]
  }

  lemma {:induction false} DecimalValue(n: nat)
    ensures Value(Decimal(n)) == n
  {
    if n >= 10 {
      var d := Decimal(n);
      assert d[..|d| - 1] == Decimal(n / 10);
      DecimalValue(n / 10);
    }
  }

  lemma {:induction false} DecimalLength(n: nat, w: nat)
    requires w >= 1 && n < Pow10(w)
    ensures |Decimal(n)| <= w
  {
    if n >= 10 {
      DecimalLength(n / 10, w - 1);
    }
  }

  lemma {:induction false} LeadingZeros(k: nat, s: string)
    requires IsDigits(s)
    ensures Value(ZeroChars(k) + s) == Value(s)
    decreases |s|
  {
    if s == [] {
      ZerosValue(k);
      assert ZeroChars(k) + s == ZeroChars(k);
    } else {
      assert (ZeroChars(k) + s)[..|ZeroChars(k) + s| - 1] == ZeroChars(k) + s[..|s| - 1];
      LeadingZeros(k, s[..|s| - 1]);
    }
  }

  lemma {:induction false} ZerosValue(k: nat)
    ensures Value(ZeroChars(k)) == 0
  {
    if k > 0 {
      assert ZeroChars(k)[..k - 1] == ZeroChars(k - 1);
      ZerosValue(k - 1);
    }
  }

  /** A number below 10^w pads to exactly w digits that spell it. */
  lemma PaddedValue(n: nat, w: nat)
    requires w >= 1 && n < Pow10(w)
    ensures |Padded(n, w)| == w && Value(Padded(n, w)) == n
  {
    DecimalLength(n, w);
    DecimalValue(n);
    if |Decimal(n)| < w {
      LeadingZeros(w - |Decimal(n)|, Decimal(n));
    }
  }

  /**
   * For map ids below 1000 and grid coordinates below 100 the name is the
   * whole format, 16 characters long, and the map id and both coordinates
   * can be read back from fixed positions in it.
   */
  lemma FileNameFields(c: MapCoord)
    requires c.mapId < 1000 && c.x < 100 && c.y < 100
    ensures GridFileName(c) == Formatted(c) && |GridFileName(c)| == 16
    ensures var n := GridFileName(c);
      IsDigits(n[5..12]) && Value(n[5..8]) == c.mapId && Value(n[8..10]) == c.x && Value(n[10..12]) == c.y
  {
    PaddedValue(c.mapId, 3);
    PaddedValue(c.x, 2);
    PaddedValue(c.y, 2);
    var n := Formatted(c);
    assert n[5..8] == Padded(c.mapId, 3);
    assert n[8..10] == Padded(c.x, 2);
    assert n[10..12] == Padded(c.y, 2);
  }

  /** So two such grids never share a file. */
  lemma FileNameInjective(a: MapCoord, b: MapCoord)
    requires a.mapId < 1000 && a.x < 100 && a.y < 100
    requires b.mapId < 1000 && b.x < 100 && b.y < 100
    ensures GridFileName(a) == GridFileName(b) <==> a == b
  {
    FileNameFields(a);
    FileNameFields(b);
  }

  /**
   * `fs::path(dataPath) / name` for a relative name on POSIX: a separator is
   * added only when the directory has a file name, so an empty directory
   * leaves the name relative and one ending in '/' is not doubled.
   */
  function JoinPath(dir: string, name: string): (r: string)
    ensures dir == "" ==> r == name
    ensures dir != "" ==> |dir| + |name| <= |r| <= |dir| + |name| + 1
    ensures dir != "" ==> r[..|dir|] == dir && r[|r| - |name|..] == name && r[|r| - |name| - 1] == '/'
  {
    if dir == "" || dir[|dir| - 1] == '/' then
      assert (dir + name)[..|dir|] == dir && (dir + name)[|dir|..] == name;
      dir + name
    else
      var r := dir + "/" + name;
      assert r[..|dir|] == dir && r[|dir| + 1..] == name;
      r
  }

  // ---------------------------------------------------------------------------
  // The caches

  /** A grid read from the file at `path`; its contents are not modelled. */
  datatype LoadedGrid = LoadedGrid(path: string)

  /** What the vmap manager's `loadMap` answers. */
  datatype VMapLoadResult = LoadOk | LoadError | LoadIgnored | LoadOther(code: int)

  /** A vmap cache entry once a key has been probed: true only for a successful load. */
  function VMapEntry(cache: map<MapCoord, bool>, c: MapCoord, result: VMapLoadResult): (ok: bool)
    ensures c !in cache ==> (ok <==> result == LoadOk)
  {
    if c in cache then cache[c] else result == LoadOk
  }

  class MapDataMgr {
    /** `m_maps`: null for a grid whose file does not exist. */
    var grids: map<MapCoord, Option<LoadedGrid>>
    /** `m_vmaps`. */
    var vmaps: map<MapCoord, bool>
    /** The `Data.Path` setting. */
    const dataPath: string

    constructor (dataPath: string)
      ensures grids == map[] && vmaps == map[] && this.dataPath == dataPath
    {
      this.dataPath := dataPath;
      grids, vmaps := map[], map[];
    }

    function GridPath(c: MapCoord): string
      reads this
    {
      JoinPath(dataPath, GridFileName(c))
    }

    /**
     * `LoadGridMap`: a cached key answers from the cache; otherwise the
     * grid's file is looked for among `files`, and the grid (or null) is
     * cached under the key.
     */
    method LoadGridMap(c: MapCoord, files: set<string>) returns (g: Option<LoadedGrid>)
      modifies this`grids
      ensures c in old(grids) ==> g == old(grids)[c] && grids == old(grids)
      ensures c !in old(grids) ==> grids == old(grids)[c := g]
      ensures c !in old(grids) ==> (g.Some? <==> GridPath(c) in files)
      ensures g.Some? ==> g.value.path == GridPath(c) || c in old(grids)
    {
      if c in grids {
        g := grids[c];
      } else {
        var path := GridPath(c);
        if path in files {
          g := Some(LoadedGrid(path));
        } else {
          g := None;
        }
        grids := grids[c := g];
      }
    }

    /** `LoadVMap`: one probe of the vmap manager per key, then the cached answer. */
    method LoadVMap(c: MapCoord, result: VMapLoadResult) returns (ok: bool)
      modifies this`vmaps
      ensures ok == VMapEntry(old(vmaps), c, result)
      ensures vmaps == old(vmaps)[c := ok] && c in vmaps && vmaps[c] == ok
    {
      if c in vmaps {
        ok := vmaps[c];
      } else {
        ok := result == LoadOk;
        vmaps := vmaps[c := ok];
      }
    }

    /** `GetHeight`: the grid's height at the point, or 0 without a grid. */
    method GetHeight(c: MapCoord, files: set<string>, gridHeight: real) returns (h: real)
      modifies this`grids
      ensures c in old(grids) && old(grids)[c].None? ==> h == 0.0
      ensures c !in old(grids) && GridPath(c) !in files ==> h == 0.0
      ensures c !in old(grids) && GridPath(c) in files ==> h == gridHeight
      ensures c in old(grids) && old(grids)[c].Some? ==> h == gridHeight
      ensures c in old(grids) ==> grids == old(grids)
      ensures c !in old(grids) ==> grids == old(grids)[c := if GridPath(c) in files then Some(LoadedGrid(GridPath(c))) else None]
    {
      var g := LoadGridMap(c, files);
      h := if g.Some? then gridHeight else 0.0;
    }

    /**
     * `IsInLineOfSight`: asks the vmap manager only when the vmaps of both
     * ends load; the second end is not probed when the first fails.
     */
    method IsInLineOfSight(c1: MapCoord, c2: MapCoord, r1: VMapLoadResult, r2: VMapLoadResult, sight: bool)
      returns (visible: bool)
      modifies this`vmaps
      ensures visible ==> sight && c1 in vmaps && vmaps[c1] && c2 in vmaps && vmaps[c2]
      ensures !VMapEntry(old(vmaps), c1, r1) ==> !visible && vmaps == old(vmaps)[c1 := false]
      ensures VMapEntry(old(vmaps), c1, r1) ==>
        visible == (VMapEntry(old(vmaps)[c1 := true], c2, r2) && sight) &&
        vmaps == old(vmaps)[c1 := true][c2 := VMapEntry(old(vmaps)[c1 := true], c2, r2)]
    {
      var first := LoadVMap(c1, r1);
      if first {
        var second := LoadVMap(c2, r2);
        visible := second && sight;
      } else {
        visible := false;
      }
    }
  }

  /** A key is probed once: a second lookup answers the first answer whatever the files are by then. */
  method LoadGridTwice(m: MapDataMgr, c: MapCoord, before: set<string>, after: set<string>)
    returns (first: Option<LoadedGrid>, second: Option<LoadedGrid>)
    modifies m`grids
    ensures first == second && c in m.grids && m.grids[c] == first
  {
    first := m.LoadGridMap(c, before);
    second := m.LoadGridMap(c, after);
  }

  // ---------------------------------------------------------------------------
  // The line-of-sight query as the Lua binding forwards it

  /** The two ends of a sight line. */
  datatype Segment = Segment(x1: real, y1: real, z1: real, x2: real, y2: real, z2: real)

  /** The `IsInLineOfSight` binding as written forwards `z2` in place of `z1`. */
  function ForwardAsWritten(s: Segment): Segment
  {
    Segment(s.x1, s.y1, s.z2, s.x2, s.y2, s.z2)
  }

  /** Whenever the ends are at different heights, the query is made from the wrong start. */
  lemma ForwardLosesStartHeight(s: Segment)
    requires s.z1 != s.z2
    ensures ForwardAsWritten(s) != s && ForwardAsWritten(s).z1 == ForwardAsWritten(s).z2
  {
  }

  /** The evidently intended forwarding: the segment the script asked about. */
  function Forward(s: Segment): (r: Segment)
    ensures r == s
  {
    Segment(s.x1, s.y1, s.z1, s.x2, s.y2, s.z2)
  }
}
