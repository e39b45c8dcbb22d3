/**
 * Material bookkeeping of the multi-material remap application
 * (app/portageapp/portageapp_multimat_jali.cc).  The material file gives,
 * for every source cell, how many materials it holds, and flattened arrays
 * of their ids, volume fractions and (optionally) centroids.  The
 * application computes the offsets of every cell's block, gathers the
 * distinct material ids, transposes the data into per-material lists of
 * cells, names the materials, and after the remap gathers the target's
 * per-material lists back into flattened per-cell arrays.
 *
 * `std::vector`s are values here (sequences updated by index); a centroid
 * is any value of the type parameter `P`.
 */
module MaterialData {
  import opened Sequences

  // ---------------------------------------------------------------------
  // Offsets into the flattened arrays
  // ---------------------------------------------------------------------

  /** The block of cell `c` ends where the block of `c + 1` begins, inside the whole. */
  lemma Block(cellNumMats: seq<nat>, c: nat)
    requires c < |cellNumMats|
    ensures Sum(cellNumMats[..c + 1]) == Sum(cellNumMats[..c]) + cellNumMats[c]
    ensures Sum(cellNumMats[..c + 1]) <= Sum(cellNumMats)
  {
    assert cellNumMats[..c + 1] == cellNumMats[..c] + [cellNumMats[c]];
    SumSnoc(cellNumMats[..c], cellNumMats[c]);
    SumPrefixMonotone(cellNumMats, c + 1, |cellNumMats|);
    assert cellNumMats[..|cellNumMats|] == cellNumMats;
  }

  /**
   * Offsets of the per-cell blocks: the number of entries of all earlier
   * cells.  The code writes `offsets[0]` unconditionally, so there must be
   * at least one cell.
   */
  method ComputeOffsets(cellNumMats: seq<nat>) returns (offsets: seq<nat>)
    requires |cellNumMats| >= 1
    ensures |offsets| == |cellNumMats|
    ensures forall i :: 0 <= i < |offsets| ==> offsets[i] == Sum(cellNumMats[..i])
  {
    var n := |cellNumMats|;
    offsets := seq(n, _ => 0);
    offsets := offsets[0 := 0];
    for i := 1 to n
      invariant |offsets| == n
      invariant forall j :: 0 <= j < i ==> offsets[j] == Sum(cellNumMats[..j])
    {
      Block(cellNumMats, i - 1);
      offsets := offsets[i := offsets[i - 1] + cellNumMats[i - 1]];
    }
  }

  /** The blocks of two different cells do not overlap: the earlier one ends before the later one starts. */
  lemma {:induction false} BlocksInOrder(cellNumMats: seq<nat>, c: nat, d: nat)
    requires c < d < |cellNumMats|
    ensures Sum(cellNumMats[..c]) + cellNumMats[c] <= Sum(cellNumMats[..d])
    ensures Sum(cellNumMats[..d]) + cellNumMats[d] <= Sum(cellNumMats)
  {
    Block(cellNumMats, c);
    Block(cellNumMats, d);
    SumPrefixMonotone(cellNumMats, c + 1, d);
  }

  /** The entries of cell `c`: its slice of the flattened array. */
  function CellEntries<V>(cellNumMats: seq<nat>, flat: seq<V>, c: nat): (r: seq<V>)
    requires |flat| == Sum(cellNumMats) && c < |cellNumMats|
    ensures |r| == cellNumMats[c]
  {
    Block(cellNumMats, c);
    flat[Sum(cellNumMats[..c])..Sum(cellNumMats[..c]) + cellNumMats[c]]
  }

  // ---------------------------------------------------------------------
  // Distinct material ids
  // ---------------------------------------------------------------------

  /**
   * The ids of all materials in the problem, each once, in the order of
   * their first appearance in the flattened id array (a linear search of
   * the ids found so far for every entry).
   */
  method CollectMaterialIds(cellNumMats: seq<nat>, offsets: seq<nat>, cellMatIds: seq<int>)
    returns (matIds: seq<int>, nmats: nat)
    requires |offsets| == |cellNumMats|
    requires forall i :: 0 <= i < |offsets| ==> offsets[i] == Sum(cellNumMats[..i])
    requires |cellMatIds| == Sum(cellNumMats)
    ensures matIds == Dedup(cellMatIds)
    ensures nmats == |matIds|
  {
    var n := |cellNumMats|;
    matIds := [];
    nmats := 0;
    for c := 0 to n
      invariant Sum(cellNumMats[..c]) <= |cellMatIds|
      invariant nmats == |matIds|
      invariant matIds == Dedup(cellMatIds[..Sum(cellNumMats[..c])])
    {
      Block(cellNumMats, c);
      matIds, nmats := CollectCellIds(cellMatIds, offsets[c], cellNumMats[c], matIds, nmats);
    }
    assert cellNumMats[..n] == cellNumMats;
    assert cellMatIds[..Sum(cellNumMats)] == cellMatIds;
  }

  /** One cell of the search: the ids of entries `ibeg .. ibeg + count` not yet seen are appended. */
  method CollectCellIds(cellMatIds: seq<int>, ibeg: nat, count: nat, matIds0: seq<int>, nmats0: nat)
    returns (matIds: seq<int>, nmats: nat)
    requires ibeg + count <= |cellMatIds|
    requires nmats0 == |matIds0| && matIds0 == Dedup(cellMatIds[..ibeg])
    ensures nmats == |matIds|
    ensures matIds == Dedup(cellMatIds[..ibeg + count])
  {
    matIds, nmats := matIds0, nmats0;
    for m := 0 to count
      invariant nmats == |matIds|
      invariant matIds == Dedup(cellMatIds[..ibeg + m])
    {
      var id := cellMatIds[ibeg + m];
      var found := KnownId(matIds, nmats, id);
      PrefixSnoc(cellMatIds, ibeg + m);
      DedupSnoc(cellMatIds[..ibeg + m], id);
      if !found {
        matIds := matIds + [id];
        nmats := nmats + 1;
      }
    }
  }

  /** The linear search of the ids found so far: whether `id` is among the first `nmats`. */
  method KnownId(matIds: seq<int>, nmats: nat, id: int) returns (found: bool)
    requires nmats == |matIds|
    ensures found <==> id in matIds
  {
    found := false;
    var m2 := 0;
    while m2 < nmats
      invariant 0 <= m2 <= nmats
      invariant !found && id !in matIds[..m2]
    {
      if matIds[m2] == id {
        found := true;
        break;
      }
      PrefixSnoc(matIds, m2);
      m2 := m2 + 1;
    }
    if !found {
      assert matIds[..m2] == matIds;
    }
  }

  // ---------------------------------------------------------------------
  // Cell-centric to material-centric
  // ---------------------------------------------------------------------

  /** `Gather(n, keys, vals)[m]` holds, in order, the `vals` whose parallel key is `m`, for `m` below `n`. */
  function Gather<V>(n: nat, keys: seq<int>, vals: seq<V>): seq<seq<V>>
    requires |keys| == |vals|
  {
    seq(n, m requires 0 <= m < n => Select(keys, vals, m))
  }

  /** Appending an entry with key `k` appends its value to list `k` and leaves the other lists alone. */
  lemma GatherStep<V>(n: nat, keys: seq<int>, vals: seq<V>, k: int, v: V)
    requires |keys| == |vals| && 0 <= k < n
    ensures Gather(n, keys + [k], vals + [v]) == Gather(n, keys, vals)[k := Gather(n, keys, vals)[k] + [v]]
  {
    var before, after := Gather(n, keys, vals), Gather(n, keys + [k], vals + [v]);
    forall m | 0 <= m < n ensures after[m] == before[k := before[k] + [v]][m] {
      SelectSnoc(keys, vals, k, v, m);
    }
  }

  /**
   * The per-material lists hold the transposition of the first `p`
   * entries: cells by material, volume fractions by material, and
   * centroids by material when the file gave centroids.
   */
  ghost predicate Transposed<P>(nmats: nat, cellNumMats: seq<nat>, cellMatIds: seq<int>,
                                cellMatVolfracs: seq<real>, cellMatCentroids: seq<P>, p: nat,
                                matCells: seq<seq<nat>>, matVolfracs: seq<seq<real>>, matCentroids: seq<seq<P>>)
  {
    && p <= |cellMatIds| == |cellMatVolfracs| == |Owners(cellNumMats)|
    && matCells == Gather(nmats, cellMatIds[..p], Owners(cellNumMats)[..p])
    && matVolfracs == Gather(nmats, cellMatIds[..p], cellMatVolfracs[..p])
    && (|cellMatCentroids| > 0 ==>
          p <= |cellMatCentroids| && matCentroids == Gather(nmats, cellMatIds[..p], cellMatCentroids[..p]))
    && (|cellMatCentroids| == 0 ==> matCentroids == seq(nmats, _ => []))
  }

  /**
   * The transposition: for every entry of cell `c` with material id `m`,
   * append `c` to the cells of `m` and the entry's volume fraction (and
   * centroid, when the file gave centroids) to `m`'s lists.  Ids index the
   * per-material vectors directly, so every id must lie in [0, nmats).
   */
  method ToMaterialCentric<P>(cellNumMats: seq<nat>, offsets: seq<nat>, cellMatIds: seq<int>,
                              cellMatVolfracs: seq<real>, cellMatCentroids: seq<P>, nmats: nat)
    returns (matCells: seq<seq<nat>>, matVolfracs: seq<seq<real>>, matCentroids: seq<seq<P>>)
    requires |offsets| == |cellNumMats|
    requires forall i :: 0 <= i < |offsets| ==> offsets[i] == Sum(cellNumMats[..i])
    requires |cellMatIds| == Sum(cellNumMats) && |cellMatVolfracs| == |cellMatIds|
    requires |cellMatCentroids| == 0 || |cellMatCentroids| == |cellMatIds|
    requires forall e :: 0 <= e < |cellMatIds| ==> 0 <= cellMatIds[e] < nmats
    ensures matCells == Gather(nmats, cellMatIds, Owners(cellNumMats))
    ensures matVolfracs == Gather(nmats, cellMatIds, cellMatVolfracs)
    ensures |cellMatCentroids| > 0 ==> matCentroids == Gather(nmats, cellMatIds, cellMatCentroids)
    ensures |cellMatCentroids| == 0 ==> matCentroids == seq(nmats, _ => [])
  {
    matCells := seq(nmats, _ => []);
    matVolfracs := seq(nmats, _ => []);
    matCentroids := seq(nmats, _ => []);
    var n := |cellNumMats|;
    for c := 0 to n
      invariant Transposed(nmats, cellNumMats, cellMatIds, cellMatVolfracs, cellMatCentroids,
                           Sum(cellNumMats[..c]), matCells, matVolfracs, matCentroids)
    {
      matCells, matVolfracs, matCentroids :=
        TransposeCell(cellNumMats, offsets, cellMatIds, cellMatVolfracs, cellMatCentroids, nmats, c,
                      matCells, matVolfracs, matCentroids);
    }
    assert cellNumMats[..n] == cellNumMats;
    assert cellMatIds[..Sum(cellNumMats)] == cellMatIds;
    assert Owners(cellNumMats)[..Sum(cellNumMats)] == Owners(cellNumMats);
    assert cellMatVolfracs[..Sum(cellNumMats)] == cellMatVolfracs;
    assert |cellMatCentroids| > 0 ==> cellMatCentroids[..Sum(cellNumMats)] == cellMatCentroids;
  }

  /** The inner loop of the transposition: the entries of cell `c`, in order. */
  method TransposeCell<P>(cellNumMats: seq<nat>, offsets: seq<nat>, cellMatIds: seq<int>,
                          cellMatVolfracs: seq<real>, cellMatCentroids: seq<P>, nmats: nat, c: nat,
                          matCells: seq<seq<nat>>, matVolfracs: seq<seq<real>>, matCentroids: seq<seq<P>>)
    returns (matCells': seq<seq<nat>>, matVolfracs': seq<seq<real>>, matCentroids': seq<seq<P>>)
    requires |offsets| == |cellNumMats| && c < |cellNumMats| && offsets[c] == Sum(cellNumMats[..c])
    requires |cellMatIds| == Sum(cellNumMats) && |cellMatVolfracs| == |cellMatIds|
    requires |cellMatCentroids| == 0 || |cellMatCentroids| == |cellMatIds|
    requires forall e :: 0 <= e < |cellMatIds| ==> 0 <= cellMatIds[e] < nmats
    requires Transposed(nmats, cellNumMats, cellMatIds, cellMatVolfracs, cellMatCentroids,
                        Sum(cellNumMats[..c]), matCells, matVolfracs, matCentroids)
    ensures Transposed(nmats, cellNumMats, cellMatIds, cellMatVolfracs, cellMatCentroids,
                       Sum(cellNumMats[..c + 1]), matCells', matVolfracs', matCentroids')
  {
    var centroidsGiven := |cellMatCentroids| > 0;
    ghost var owners := Owners(cellNumMats);
    Block(cellNumMats, c);
    var ibeg := offsets[c];
    matCells', matVolfracs', matCentroids' := matCells, matVolfracs, matCentroids;
    for j := 0 to cellNumMats[c]
      invariant matCells' == Gather(nmats, cellMatIds[..ibeg + j], owners[..ibeg + j])
      invariant matVolfracs' == Gather(nmats, cellMatIds[..ibeg + j], cellMatVolfracs[..ibeg + j])
      invariant centroidsGiven ==> matCentroids' == Gather(nmats, cellMatIds[..ibeg + j], cellMatCentroids[..ibeg + j])
      invariant !centroidsGiven ==> matCentroids' == matCentroids
    {
      var p := ibeg + j;
      OwnersAt(cellNumMats, c, j);
      assert owners[p] == c;
      var m := cellMatIds[p];
      TransposeEntry(nmats, cellMatIds, owners, p, m, c);
      TransposeEntry(nmats, cellMatIds, cellMatVolfracs, p, m, cellMatVolfracs[p]);
      matCells' := matCells'[m := matCells'[m] + [c]];
      matVolfracs' := matVolfracs'[m := matVolfracs'[m] + [cellMatVolfracs[p]]];
      if centroidsGiven {
        TransposeEntry(nmats, cellMatIds, cellMatCentroids, p, m, cellMatCentroids[p]);
        matCentroids' := matCentroids'[m := matCentroids'[m] + [cellMatCentroids[p]]];
      }
    }
    assert ibeg + cellNumMats[c] == Sum(cellNumMats[..c + 1]);
  }

  /** Transposing entry `p` after the entries before it. */
  lemma TransposeEntry<V>(nmats: nat, keys: seq<int>, vals: seq<V>, p: nat, m: int, v: V)
    requires p < |keys| == |vals| && keys[p] == m && vals[p] == v && 0 <= m < nmats
    ensures var before := Gather(nmats, keys[..p], vals[..p]);
            Gather(nmats, keys[..p + 1], vals[..p + 1]) == before[m := before[m] + [v]]
  {
    GatherStep(nmats, keys[..p], vals[..p], m, v);
    PrefixSnoc(keys, p);
    PrefixSnoc(vals, p);
  }

  /** Cell `c` is among the cells of material `m` exactly when `m` is among the materials of `c`. */
  lemma MaterialCellsMembership(cellNumMats: seq<nat>, cellMatIds: seq<int>, m: int, c: nat)
    requires |cellMatIds| == Sum(cellNumMats) && c < |cellNumMats|
    ensures c in Select(cellMatIds, Owners(cellNumMats), m) <==> m in CellEntries(cellNumMats, cellMatIds, c)
  {
    var owners := Owners(cellNumMats);
    SelectMember(cellMatIds, owners, m, c);
    if c in Select(cellMatIds, owners, m) {
      var e :| 0 <= e < |cellMatIds| && cellMatIds[e] == m && owners[e] == c;
      EntryInItsCell(cellNumMats, cellMatIds, e);
    }
    var entries := CellEntries(cellNumMats, cellMatIds, c);
    if m in entries {
      var i :| 0 <= i < |entries| && entries[i] == m;
      CellEntryAt(cellNumMats, cellMatIds, c, i);
      var e := Sum(cellNumMats[..c]) + i;
      assert 0 <= e < |cellMatIds| && cellMatIds[e] == m && owners[e] == c;
    }
  }

  /** Every entry of the flattened array is among the entries of the cell owning it. */
  lemma EntryInItsCell(cellNumMats: seq<nat>, cellMatIds: seq<int>, e: nat)
    requires |cellMatIds| == Sum(cellNumMats) && e < |cellMatIds|
    ensures cellMatIds[e] in CellEntries(cellNumMats, cellMatIds, Owners(cellNumMats)[e])
  {
    var c := Owners(cellNumMats)[e];
    OwnersRange(cellNumMats, e);
    var base := Sum(cellNumMats[..c]);
    CellEntryAt(cellNumMats, cellMatIds, c, e - base);
  }

  /** Entry `i` of cell `c` sits at offset `i` of the cell's block, which cell `c` owns. */
  lemma CellEntryAt(cellNumMats: seq<nat>, cellMatIds: seq<int>, c: nat, i: nat)
    requires |cellMatIds| == Sum(cellNumMats) && c < |cellNumMats| && i < cellNumMats[c]
    ensures Sum(cellNumMats[..c]) + i < |cellMatIds|
    ensures CellEntries(cellNumMats, cellMatIds, c)[i] == cellMatIds[Sum(cellNumMats[..c]) + i]
    ensures Owners(cellNumMats)[Sum(cellNumMats[..c]) + i] == c
  {
    CellEntryIndex(cellNumMats, cellMatIds, c, i);
    OwnersAt(cellNumMats, c, i);
  }

  /** Entry `i` of cell `c` is entry `Sum(cellNumMats[..c]) + i` of the flattened array. */
  lemma CellEntryIndex<V>(cellNumMats: seq<nat>, flat: seq<V>, c: nat, i: nat)
    requires |flat| == Sum(cellNumMats) && c < |cellNumMats| && i < cellNumMats[c]
    ensures Sum(cellNumMats[..c]) + i < |flat|
    ensures CellEntries(cellNumMats, flat, c)[i] == flat[Sum(cellNumMats[..c]) + i]
  {
    Block(cellNumMats, c);
    var base, n := Sum(cellNumMats[..c]), cellNumMats[c];
    SliceAt(flat, base, base + n, i);
  }

  /** The cells of every material are listed in non-decreasing cell order, and are source cells. */
  lemma MaterialCellsSorted(cellNumMats: seq<nat>, cellMatIds: seq<int>, m: int)
    requires |cellMatIds| == Sum(cellNumMats)
    ensures NonDecreasing(Select(cellMatIds, Owners(cellNumMats), m))
    ensures forall i :: 0 <= i < |Select(cellMatIds, Owners(cellNumMats), m)| ==>
              Select(cellMatIds, Owners(cellNumMats), m)[i] < |cellNumMats|
  {
    var owners := Owners(cellNumMats);
    OwnersShape(cellNumMats);
    SelectNonDecreasing(cellMatIds, owners, m);
    forall i | 0 <= i < |Select(cellMatIds, owners, m)|
      ensures Select(cellMatIds, owners, m)[i] < |cellNumMats|
    {
      var c := Select(cellMatIds, owners, m)[i];
      SelectMember(cellMatIds, owners, m, c);
      assert c in Select(cellMatIds, owners, m);
      var e :| 0 <= e < |cellMatIds| && cellMatIds[e] == m && owners[e] == c;
      assert owners[e] < |cellNumMats|;
    }
  }

  lemma {:induction false} CountsSum(keys: seq<int>, bound: nat)
    ensures Sum(seq(bound, m requires 0 <= m < bound => Count(keys, m))) == CountBelow(keys, bound)
  {
    if bound > 0 {
      CountsSum(keys, bound - 1);
      var s := seq(bound, m requires 0 <= m < bound => Count(keys, m));
      assert s[..bound - 1] == seq(bound - 1, m requires 0 <= m < bound - 1 => Count(keys, m));
    }
  }

  /**
   * No entry is lost or duplicated: the per-material lists together hold
   * as many entries as the flattened arrays.
   */
  lemma MaterialCentricTotal<V>(n: nat, keys: seq<int>, vals: seq<V>)
    requires |keys| == |vals|
    requires forall e :: 0 <= e < |keys| ==> 0 <= keys[e] < n
    ensures Sum(Lengths(Gather(n, keys, vals))) == |keys|
  {
    assert Lengths(Gather(n, keys, vals)) == seq(n, m requires 0 <= m < n => Count(keys, m));
    CountsSum(keys, n);
    CountBelowTotal(keys, n);
  }

  // ---------------------------------------------------------------------
  // Material names
  // ---------------------------------------------------------------------

  function Digit(d: nat): (r: char)
    requires d < 10
    ensures '0' <= r <= '9' && (r as int) - ('0' as int) == d
  {
    (('0' as int) + d) as char
  }

  /** The decimal digits of `n`, most significant first, as `operator<<` writes them. */
  function NaturalString(n: nat): (r: string)
    ensures |r| >= 1
    ensures forall i :: 0 <= i < |r| ==> '0' <= r[i] <= '9'
  {
    if n < 10 then [Digit(n)] else NaturalString(n / 10) + [Digit(n % 10)]
  }

  /** `operator<<` for an `int`: a '-' before the digits of a negative number. */
  function DecimalString(i: int): (r: string)
    ensures |r| >= 1
  {
    if i < 0 then "-" + NaturalString(-i) else NaturalString(i)
  }

  function ParseNatural(s: string): int {
    if |s| == 0 then 0
    else ParseNatural(s[..|s| - 1]) * 10 + ((s[|s| - 1] as int) - ('0' as int))
  }

  function ParseDecimal(s: string): int {
    if |s| > 0 && s[0] == '-' then -ParseNatural(s[1..]) else ParseNatural(s)
  }

  lemma {:induction false} NaturalRoundTrip(n: nat)
    ensures ParseNatural(NaturalString(n)) == n
  {
    if n >= 10 {
      NaturalRoundTrip(n / 10);
      var s := NaturalString(n);
      assert s[..|s| - 1] == NaturalString(n / 10);
    }
  }

  /** Reading back the printed number gives the number. */
  lemma DecimalRoundTrip(i: int)
    ensures ParseDecimal(DecimalString(i)) == i
  {
    if i < 0 {
      NaturalRoundTrip(-i);
      assert DecimalString(i)[1..] == NaturalString(-i);
    } else {
      NaturalRoundTrip(i);
    }
  }

  /** The name a material is registered under: "mat" followed by its id. */
  function MaterialName(id: int): (r: string)
    ensures |r| > 3 && r[..3] == "mat"
    ensures ParseDecimal(r[3..]) == id
  {
    DecimalRoundTrip(id);
    var r := "mat" + DecimalString(id);
    assert r[3..] == DecimalString(id);
    r
  }

  /** Different ids give different names. */
  lemma MaterialNameInjective(a: int, b: int)
    ensures MaterialName(a) == MaterialName(b) <==> a == b
  {
    if MaterialName(a) == MaterialName(b) {
      assert MaterialName(a)[3..] == MaterialName(b)[3..];
    }
  }

  /** The name loop as written: the `m`-th material is named after the `m`-th id found. */
  method MaterialNames(matIds: seq<int>) returns (matnames: seq<string>)
    ensures |matnames| == |matIds|
    ensures forall m :: 0 <= m < |matIds| ==> matnames[m] == MaterialName(matIds[m])
  {
    var nmats := |matIds|;
    matnames := seq(nmats, _ => "");
    for m := 0 to nmats
      invariant |matnames| == nmats
      invariant forall k :: 0 <= k < m ==> matnames[k] == MaterialName(matIds[k])
    {
      matnames := matnames[m := MaterialName(matIds[m])];
    }
  }

  /**
   * Names registered for the material-centric lists, which are indexed by
   * the material id itself: the `m`-th material is named after id `m`.
   */
  method MaterialNamesByIndex(nmats: nat) returns (matnames: seq<string>)
    ensures |matnames| == nmats
    ensures forall m :: 0 <= m < nmats ==> matnames[m] == MaterialName(m)
  {
    matnames := seq(nmats, _ => "");
    for m := 0 to nmats
      invariant |matnames| == nmats
      invariant forall k :: 0 <= k < m ==> matnames[k] == MaterialName(k)
    {
      matnames := matnames[m := MaterialName(m)];
    }
  }

  /** Distinct ids give distinct names. */
  lemma MaterialNamesDistinct(matIds: seq<int>, matnames: seq<string>)
    requires NoDuplicates(matIds) && |matnames| == |matIds|
    requires forall m :: 0 <= m < |matIds| ==> matnames[m] == MaterialName(matIds[m])
    ensures NoDuplicates(matnames)
  {
    forall i, j | 0 <= i < j < |matnames| ensures matnames[i] != matnames[j] {
      MaterialNameInjective(matIds[i], matIds[j]);
    }
  }

  /**
   * With names by index, the material registered under the name of id `k`
   * holds exactly the cells whose entries list material `k`.
   */
  lemma NamesByIndexAgreeWithCells(cellNumMats: seq<nat>, cellMatIds: seq<int>,
                                   nmats: nat, matnames: seq<string>, m: nat, c: nat)
    requires |cellMatIds| == Sum(cellNumMats)
    requires |matnames| == nmats && forall k :: 0 <= k < nmats ==> matnames[k] == MaterialName(k)
    requires m < nmats && c < |cellNumMats|
    ensures matnames[m] == MaterialName(m)
    ensures c in Gather(nmats, cellMatIds, Owners(cellNumMats))[m]
            <==> ParseDecimal(matnames[m][3..]) in CellEntries(cellNumMats, cellMatIds, c)
  {
    MaterialCellsMembership(cellNumMats, cellMatIds, m, c);
  }

  /**
   * With names after the ids in order of first appearance, the two can
   * disagree: cell 0 holds material 1 and cell 1 material 0.  The first
   * material is then named "mat1", but the list it is registered with -- the
   * cells of id 0 -- is cell 1, which does not hold material 1.
   */
  lemma NamesByFirstAppearanceDisagree()
    ensures var cellNumMats := [1, 1];
            var cellMatIds := [1, 0];
            var matIds := Dedup(cellMatIds);
            |matIds| == 2 && matIds[0] == 1 &&
            Select(cellMatIds, Owners(cellNumMats), 0) == [1] &&
            ParseDecimal(MaterialName(matIds[0])[3..]) !in CellEntries(cellNumMats, cellMatIds, 1)
  {
    var cellNumMats: seq<nat> := [1, 1];
    var cellMatIds := [1, 0];
    assert cellMatIds[..1] == [1];
    assert [1][..0] == [];
    assert Dedup(cellMatIds) == [1, 0];
    assert cellNumMats[..1] == [1];
    assert Owners([1]) == [0] by {
      assert [1][..0] == [];
    }
    assert Owners(cellNumMats) == [0, 1];
    assert Select(cellMatIds, Owners(cellNumMats), 0) == [1] by {
      assert Select([1], [0 as nat], 0) == [] by {
        assert [1][..0] == [];
      }
    }
    assert CellEntries(cellNumMats, cellMatIds, 1) == [0];
  }

  // ---------------------------------------------------------------------
  // Material-centric target data back to cell-centric
  // ---------------------------------------------------------------------

  /** The number of regathered entries of every cell: how many keys name it. */
  function Counts(caps: seq<nat>, keys: seq<nat>): seq<nat> {
    seq(|caps|, c requires 0 <= c < |caps| => Count<nat>(keys, c))
  }

  /**
   * The flattened per-cell array the regathering produces, in blocks of
   * `caps[c]` slots: block `c` holds, in order, the `vals` whose parallel
   * key is `c`, and `dflt` in its remaining slots.
   */
  function Layout<V>(caps: seq<nat>, keys: seq<nat>, vals: seq<V>, dflt: V): seq<V>
    requires |keys| == |vals|
  {
    var owners := Owners(caps);
    seq(Sum(caps), e requires 0 <= e < Sum(caps) =>
      var b := owners[e];
      var k := e - Sum(caps[..b]);
      if 0 <= k < Count(keys, b) then Select(keys, vals, b)[k] else dflt)
  }

  /** Slot `k` of cell `c`'s block: its `k`-th value if it has one, `dflt` otherwise. */
  lemma LayoutAt<V>(caps: seq<nat>, keys: seq<nat>, vals: seq<V>, dflt: V, c: nat, k: nat)
    requires |keys| == |vals| && c < |caps| && k < caps[c]
    ensures Sum(caps[..c]) + k < |Layout(caps, keys, vals, dflt)|
    ensures Layout(caps, keys, vals, dflt)[Sum(caps[..c]) + k]
         == if k < Count(keys, c) then Select(keys, vals, c)[k] else dflt
  {
    OwnersAt(caps, c, k);
  }

  /**
   * Appending a value for cell `c`, while its block has room, writes it to
   * the first unused slot of the block and changes nothing else.
   */
  lemma LayoutStep<V>(caps: seq<nat>, keys: seq<nat>, vals: seq<V>, dflt: V, c: nat, v: V)
    requires |keys| == |vals| && c < |caps| && Count(keys, c) < caps[c]
    ensures Sum(caps[..c]) + Count(keys, c) < Sum(caps)
    ensures Layout(caps, keys + [c], vals + [v], dflt)
         == Layout(caps, keys, vals, dflt)[Sum(caps[..c]) + Count(keys, c) := v]
  {
    var pos := Sum(caps[..c]) + Count(keys, c);
    OwnersAt(caps, c, Count(keys, c));
    var before, after := Layout(caps, keys, vals, dflt), Layout(caps, keys + [c], vals + [v], dflt);
    forall e | 0 <= e < Sum(caps) ensures after[e] == before[pos := v][e] {
      LayoutStepAt(caps, keys, vals, dflt, c, v, e);
    }
  }

  /** Slot `e` after appending a value for cell `c`: the new value at the first unused slot, as before elsewhere. */
  lemma LayoutStepAt<V>(caps: seq<nat>, keys: seq<nat>, vals: seq<V>, dflt: V, c: nat, v: V, e: nat)
    requires |keys| == |vals| && c < |caps| && Count(keys, c) < caps[c] && e < Sum(caps)
    ensures Layout(caps, keys + [c], vals + [v], dflt)[e]
         == if e == Sum(caps[..c]) + Count(keys, c) then v else Layout(caps, keys, vals, dflt)[e]
  {
    OwnersAt(caps, c, Count(keys, c));
    var b := Owners(caps)[e];
    CountSnoc(keys, c, b);
    SelectSnoc(keys, vals, c, v, b);
  }

  lemma CountsStep(caps: seq<nat>, keys: seq<nat>, c: nat)
    requires c < |caps|
    ensures Counts(caps, keys + [c]) == Counts(caps, keys)[c := Count(keys, c) + 1]
  {
    forall d: nat | d < |caps| ensures Counts(caps, keys + [c])[d] == Counts(caps, keys)[c := Count(keys, c) + 1][d] {
      CountSnoc<nat>(keys, c, d);
    }
  }

  /** The flattening of the blocks up to `m`, then block `m`, then the rest. */
  lemma {:induction false} ConcatPieces<T>(ss: seq<seq<T>>, m: nat)
    requires m < |ss|
    ensures Concat(ss) == Concat(ss[..m]) + ss[m] + Concat(ss[m + 1..])
  {
    var front, back, rest := ss[..m], ss[m..], ss[m + 1..];
    assert ss == front + back;
    ConcatAppend(front, back);
    assert back == [ss[m]] + rest;
    ConcatAppend([ss[m]], rest);
    ConcatSnoc([], ss[m]);
    assert [] + [ss[m]] == [ss[m]];
  }

  /** A key met while walking the per-material lists occurs no more often than in all of them. */
  lemma PrefixCount<T>(ss: seq<seq<T>>, m: nat, i: nat, x: T)
    requires m < |ss| && i <= |ss[m]|
    ensures Count(Concat(ss[..m]) + ss[m][..i], x) <= Count(Concat(ss), x)
  {
    ConcatPieces(ss, m);
    var a := Concat(ss[..m]) + ss[m][..i];
    assert Concat(ss) == a + (ss[m][i..] + Concat(ss[m + 1..])) by {
      assert ss[m] == ss[m][..i] + ss[m][i..];
    }
    CountAppend(a, ss[m][i..] + Concat(ss[m + 1..]), x);
  }

  /** The next entry of a cell still fits in the cell's block. */
  lemma RoomInBlock(keys: seq<nat>, cells: seq<nat>, ic: nat, cap: nat)
    requires ic < |cells| && Count(keys + cells, cells[ic]) <= cap
    ensures Count(keys + cells[..ic], cells[ic]) < cap
  {
    var c := cells[ic];
    assert keys + cells == (keys + cells[..ic] + [c]) + cells[ic + 1..];
    CountAppend(keys + cells[..ic] + [c], cells[ic + 1..], c);
    CountSnoc(keys + cells[..ic], c, c);
  }

  lemma OwnersNextBlock<T>(ss: seq<seq<T>>, m: nat)
    requires m < |ss|
    ensures Owners(Lengths(ss[..m + 1])) == Owners(Lengths(ss[..m])) + seq(|ss[m]|, _ => m)
  {
    var lens := Lengths(ss[..m + 1]);
    LengthsPrefix(ss[..m + 1], m);
    assert ss[..m + 1][..m] == ss[..m];
    assert seq(lens[m], _ => |lens| - 1) == seq(|ss[m]|, _ => m);
  }

  /**
   * One pass of the regathering loop: material `m` appends its id, and
   * the volume fraction and centroid of each of its cells, to that cell's
   * block.  `keys`, `owners`, `vfs` and `cens` are the cells, materials,
   * volume fractions and centroids of the entries placed so far.
   */
  method ScatterMaterial<P>(tgtNumMats: seq<nat>, offsets: seq<nat>, m: nat,
                            cells: seq<nat>, matvf: seq<real>, matcen: seq<P>,
                            numMats: seq<nat>, ids: seq<nat>, volfracs: seq<real>, centroids: seq<P>,
                            ghost keys: seq<nat>, ghost owners: seq<nat>, ghost vfs: seq<real>,
                            ghost cens: seq<P>, origin: P)
    returns (numMats': seq<nat>, ids': seq<nat>, volfracs': seq<real>, centroids': seq<P>)
    requires |offsets| == |tgtNumMats|
    requires forall c :: 0 <= c < |offsets| ==> offsets[c] == Sum(tgtNumMats[..c])
    requires |matvf| == |cells| && |matcen| == |cells|
    requires forall i :: 0 <= i < |cells| ==> cells[i] < |tgtNumMats|
    requires forall c: nat :: c < |tgtNumMats| ==> Count(keys + cells, c) <= tgtNumMats[c]
    requires |owners| == |keys| && |vfs| == |keys| && |cens| == |keys|
    requires numMats == Counts(tgtNumMats, keys)
    requires ids == Layout<nat>(tgtNumMats, keys, owners, 0)
    requires volfracs == Layout(tgtNumMats, keys, vfs, 0.0)
    requires centroids == Layout(tgtNumMats, keys, cens, origin)
    ensures numMats' == Counts(tgtNumMats, keys + cells)
    ensures ids' == Layout<nat>(tgtNumMats, keys + cells, owners + seq(|cells|, _ => m), 0)
    ensures volfracs' == Layout(tgtNumMats, keys + cells, vfs + matvf, 0.0)
    ensures centroids' == Layout(tgtNumMats, keys + cells, cens + matcen, origin)
  {
    numMats', ids', volfracs', centroids' := numMats, ids, volfracs, centroids;
    ghost var ks, os, vs, cs := keys, owners, vfs, cens;
    for ic := 0 to |cells|
      invariant ks == keys + cells[..ic] && os == owners + seq(ic, _ => m)
      invariant vs == vfs + matvf[..ic] && cs == cens + matcen[..ic]
      invariant numMats' == Counts(tgtNumMats, ks)
      invariant ids' == Layout<nat>(tgtNumMats, ks, os, 0)
      invariant volfracs' == Layout(tgtNumMats, ks, vs, 0.0)
      invariant centroids' == Layout(tgtNumMats, ks, cs, origin)
    {
      var c := cells[ic];
      var ncmats := numMats'[c];
      RoomInBlock(keys, cells, ic, tgtNumMats[c]);
      LayoutStep<nat>(tgtNumMats, ks, os, 0, c, m);
      LayoutStep(tgtNumMats, ks, vs, 0.0, c, matvf[ic]);
      LayoutStep(tgtNumMats, ks, cs, origin, c, matcen[ic]);
      CountsStep(tgtNumMats, ks, c);
      ids' := ids'[offsets[c] + ncmats := m];
      volfracs' := volfracs'[offsets[c] + ncmats := matvf[ic]];
      centroids' := centroids'[offsets[c] + ncmats := matcen[ic]];
      numMats' := numMats'[c := ncmats + 1];
      PrefixSnoc(cells, ic);
      PrefixSnoc(matvf, ic);
      PrefixSnoc(matcen, ic);
      assert keys + cells[..ic + 1] == ks + [c];
      assert owners + seq(ic + 1, _ => m) == os + [m];
      assert vfs + matvf[..ic + 1] == vs + [matvf[ic]];
      assert cens + matcen[..ic + 1] == cs + [matcen[ic]];
      ks, os, vs, cs := ks + [c], os + [m], vs + [matvf[ic]], cs + [matcen[ic]];
    }
    assert cells[..|cells|] == cells;
    assert matvf[..|cells|] == matvf && matcen[..|cells|] == matcen;
  }

  /**
   * After the remap: lay out the target's cells in blocks sized by the
   * number of materials the target state reports for each cell, then walk
   * the materials in order and append each material's id, volume fraction
   * and centroid to the block of every cell it lists.  Each cell's block
   * thus holds the materials that list it, in material order; unused slots
   * keep their zero initial value.  A cell listed more often than its
   * reported count would write past its block, which the code does not
   * guard against.
   */
  method RegatherTarget<P>(tgtNumMats: seq<nat>, matCells: seq<seq<nat>>,
                           matVolfracs: seq<seq<real>>, matCentroids: seq<seq<P>>, origin: P)
    returns (offsets: seq<nat>, cellNumMats: seq<nat>, cellMatIds: seq<nat>,
             cellMatVolfracs: seq<real>, cellMatCentroids: seq<P>)
    requires |tgtNumMats| >= 1
    requires |matVolfracs| == |matCells| && |matCentroids| == |matCells|
    requires forall m :: 0 <= m < |matCells| ==>
               |matVolfracs[m]| == |matCells[m]| && |matCentroids[m]| == |matCells[m]|
    requires forall m, i :: 0 <= m < |matCells| && 0 <= i < |matCells[m]| ==> matCells[m][i] < |tgtNumMats|
    requires forall c: nat :: c < |tgtNumMats| ==> Count(Concat(matCells), c) <= tgtNumMats[c]
    ensures |offsets| == |tgtNumMats|
    ensures forall c :: 0 <= c < |offsets| ==> offsets[c] == Sum(tgtNumMats[..c])
    ensures |Owners(Lengths(matCells))| == |Concat(matCells)|
    ensures |Concat(matVolfracs)| == |Concat(matCells)| && |Concat(matCentroids)| == |Concat(matCells)|
    ensures cellNumMats == Counts(tgtNumMats, Concat(matCells))
    ensures cellMatIds == Layout<nat>(tgtNumMats, Concat(matCells), Owners(Lengths(matCells)), 0)
    ensures cellMatVolfracs == Layout(tgtNumMats, Concat(matCells), Concat(matVolfracs), 0.0)
    ensures cellMatCentroids == Layout(tgtNumMats, Concat(matCells), Concat(matCentroids), origin)
  {
    var n := |tgtNumMats|;
    offsets := ComputeOffsets(tgtNumMats);
    Block(tgtNumMats, n - 1);
    assert tgtNumMats[..n] == tgtNumMats;
    var ntotal := offsets[n - 1] + tgtNumMats[n - 1];
    cellNumMats := seq(n, _ => 0);
    cellMatIds := seq(ntotal, _ => 0);
    cellMatVolfracs := seq(ntotal, _ => 0.0);
    cellMatCentroids := seq(ntotal, _ => origin);
    cellNumMats, cellMatIds, cellMatVolfracs, cellMatCentroids :=
      ScatterMaterials(tgtNumMats, offsets, matCells, matVolfracs, matCentroids,
                       cellNumMats, cellMatIds, cellMatVolfracs, cellMatCentroids, origin);
  }

  /** The material loop of the regathering, from blocks that are still empty. */
  method ScatterMaterials<P>(tgtNumMats: seq<nat>, offsets: seq<nat>, matCells: seq<seq<nat>>,
                             matVolfracs: seq<seq<real>>, matCentroids: seq<seq<P>>,
                             numMats: seq<nat>, ids: seq<nat>, volfracs: seq<real>, centroids: seq<P>, origin: P)
    returns (cellNumMats: seq<nat>, cellMatIds: seq<nat>, cellMatVolfracs: seq<real>, cellMatCentroids: seq<P>)
    requires |offsets| == |tgtNumMats|
    requires forall c :: 0 <= c < |offsets| ==> offsets[c] == Sum(tgtNumMats[..c])
    requires |matVolfracs| == |matCells| && |matCentroids| == |matCells|
    requires forall m :: 0 <= m < |matCells| ==>
               |matVolfracs[m]| == |matCells[m]| && |matCentroids[m]| == |matCells[m]|
    requires forall m, i :: 0 <= m < |matCells| && 0 <= i < |matCells[m]| ==> matCells[m][i] < |tgtNumMats|
    requires forall c: nat :: c < |tgtNumMats| ==> Count(Concat(matCells), c) <= tgtNumMats[c]
    requires numMats == seq(|tgtNumMats|, _ => 0) && ids == seq(Sum(tgtNumMats), _ => 0)
    requires volfracs == seq(Sum(tgtNumMats), _ => 0.0) && centroids == seq(Sum(tgtNumMats), _ => origin)
    ensures |Owners(Lengths(matCells))| == |Concat(matCells)|
    ensures |Concat(matVolfracs)| == |Concat(matCells)| && |Concat(matCentroids)| == |Concat(matCells)|
    ensures cellNumMats == Counts(tgtNumMats, Concat(matCells))
    ensures cellMatIds == Layout<nat>(tgtNumMats, Concat(matCells), Owners(Lengths(matCells)), 0)
    ensures cellMatVolfracs == Layout(tgtNumMats, Concat(matCells), Concat(matVolfracs), 0.0)
    ensures cellMatCentroids == Layout(tgtNumMats, Concat(matCells), Concat(matCentroids), origin)
  {
    cellNumMats, cellMatIds, cellMatVolfracs, cellMatCentroids := numMats, ids, volfracs, centroids;
    CountsEmpty(tgtNumMats);
    LayoutEmpty<nat>(tgtNumMats, 0);
    LayoutEmpty(tgtNumMats, 0.0);
    LayoutEmpty(tgtNumMats, origin);
    // the flattenings of the materials placed so far: cells, materials, volume fractions, centroids
    ghost var keys: seq<nat>, owners: seq<nat>, vfs: seq<real>, cens: seq<P> := [], [], [], [];
    assert matCells[..0] == [] && matVolfracs[..0] == [] && matCentroids[..0] == [];
    var nmats := |matCells|;
    for m := 0 to nmats
      invariant keys == Concat(matCells[..m]) && owners == Owners(Lengths(matCells[..m]))
      invariant vfs == Concat(matVolfracs[..m]) && cens == Concat(matCentroids[..m])
      invariant |owners| == |keys| && |vfs| == |keys| && |cens| == |keys|
      invariant cellNumMats == Counts(tgtNumMats, keys)
      invariant cellMatIds == Layout<nat>(tgtNumMats, keys, owners, 0)
      invariant cellMatVolfracs == Layout(tgtNumMats, keys, vfs, 0.0)
      invariant cellMatCentroids == Layout(tgtNumMats, keys, cens, origin)
    {
      RoomForMaterial(tgtNumMats, matCells, m);
      cellNumMats, cellMatIds, cellMatVolfracs, cellMatCentroids :=
        ScatterMaterial(tgtNumMats, offsets, m, matCells[m], matVolfracs[m], matCentroids[m],
                        cellNumMats, cellMatIds, cellMatVolfracs, cellMatCentroids,
                        keys, owners, vfs, cens, origin);
      NextMaterial(matCells, matVolfracs, matCentroids, m);
      keys, owners := keys + matCells[m], owners + seq(|matCells[m]|, _ => m);
      vfs, cens := vfs + matVolfracs[m], cens + matCentroids[m];
    }
    assert matCells[..nmats] == matCells;
    assert matVolfracs[..nmats] == matVolfracs;
    assert matCentroids[..nmats] == matCentroids;
  }

  /** Before any material is placed, no cell has an entry. */
  lemma CountsEmpty(caps: seq<nat>)
    ensures Counts(caps, []) == seq(|caps|, _ => 0)
  {
    var empty: seq<nat> := [];
    forall c: nat | c < |caps| ensures Counts(caps, empty)[c] == 0 {
      assert Count(empty, c) == 0;
    }
  }

  /** Before any material is placed, every slot holds `dflt`. */
  lemma LayoutEmpty<V>(caps: seq<nat>, dflt: V)
    ensures Layout(caps, [], [], dflt) == seq(Sum(caps), _ => dflt)
  {
    var empty: seq<nat> := [];
    var slots := Layout(caps, empty, [], dflt);
    forall e | 0 <= e < Sum(caps) ensures slots[e] == dflt {
      assert Count(empty, Owners(caps)[e]) == 0;
    }
  }

  /** Material `m`'s cells still fit in their blocks after the materials before it. */
  lemma RoomForMaterial(tgtNumMats: seq<nat>, matCells: seq<seq<nat>>, m: nat)
    requires m < |matCells|
    requires forall c: nat :: c < |tgtNumMats| ==> Count(Concat(matCells), c) <= tgtNumMats[c]
    ensures forall c: nat :: c < |tgtNumMats| ==> Count(Concat(matCells[..m]) + matCells[m], c) <= tgtNumMats[c]
  {
    forall c: nat | c < |tgtNumMats| ensures Count(Concat(matCells[..m]) + matCells[m], c) <= tgtNumMats[c] {
      PrefixCount(matCells, m, |matCells[m]|, c);
      assert matCells[m][..|matCells[m]|] == matCells[m];
    }
  }

  /** The flattenings up to material `m + 1` extend those up to `m` by material `m`'s lists. */
  lemma NextMaterial<P>(matCells: seq<seq<nat>>, matVolfracs: seq<seq<real>>, matCentroids: seq<seq<P>>, m: nat)
    requires m < |matCells| && m < |matVolfracs| && m < |matCentroids|
    ensures Concat(matCells[..m + 1]) == Concat(matCells[..m]) + matCells[m]
    ensures Owners(Lengths(matCells[..m + 1])) == Owners(Lengths(matCells[..m])) + seq(|matCells[m]|, _ => m)
    ensures Concat(matVolfracs[..m + 1]) == Concat(matVolfracs[..m]) + matVolfracs[m]
    ensures Concat(matCentroids[..m + 1]) == Concat(matCentroids[..m]) + matCentroids[m]
  {
    assert matCells[..m + 1] == matCells[..m] + [matCells[m]];
    assert matVolfracs[..m + 1] == matVolfracs[..m] + [matVolfracs[m]];
    assert matCentroids[..m + 1] == matCentroids[..m] + [matCentroids[m]];
    ConcatSnoc(matCells[..m], matCells[m]);
    ConcatSnoc(matVolfracs[..m], matVolfracs[m]);
    ConcatSnoc(matCentroids[..m], matCentroids[m]);
    OwnersNextBlock(matCells, m);
  }

  /** Material `m` is among the regathered materials of cell `c` exactly when `m` lists `c`. */
  lemma RegatheredMaterials(matCells: seq<seq<nat>>, c: nat, m: nat)
    ensures |Concat(matCells)| == Sum(Lengths(matCells))
    ensures m in Select(Concat(matCells), Owners(Lengths(matCells)), c) <==> m < |matCells| && c in matCells[m]
  {
    ConcatLength(matCells);
    var flat := Concat(matCells);
    var owners := Owners(Lengths(matCells));
    SelectMember(flat, owners, c, m);
    if m in Select(flat, owners, c) {
      var e :| 0 <= e < |flat| && flat[e] == c && owners[e] == m;
      ConcatOwners(matCells, e);
    }
    if m < |matCells| && c in matCells[m] {
      var j :| 0 <= j < |matCells[m]| && matCells[m][j] == c;
      ConcatAt(matCells, m, j);
      OwnersAt(Lengths(matCells), m, j);
    }
  }

  /**
   * When no material lists a cell twice, the regathered count of cell `c`
   * is the number of materials whose cell list contains `c`.
   */
  lemma RegatheredCount(tgtNumMats: seq<nat>, matCells: seq<seq<nat>>, c: nat)
    requires c < |tgtNumMats|
    requires forall m :: 0 <= m < |matCells| ==> NoDuplicates(matCells[m])
    ensures Counts(tgtNumMats, Concat(matCells))[c] == |set m: nat | m < |matCells| && c in matCells[m]|
  {
    ListingMaterials(matCells, c);
  }

  /** Occurrences of `c` in the flattened cell lists, one per material that lists it. */
  lemma {:induction false} ListingMaterials(matCells: seq<seq<nat>>, c: nat)
    requires forall m :: 0 <= m < |matCells| ==> NoDuplicates(matCells[m])
    ensures Count(Concat(matCells), c) == |set m: nat | m < |matCells| && c in matCells[m]|
  {
    if |matCells| > 0 {
      var n := |matCells| - 1;
      var p := matCells[..n];
      ListingMaterials(p, c);
      CountAppend(Concat(p), matCells[n], c);
      CountDistinct(matCells[n], c);
      ListingStep(matCells, c);
    }
  }

  /** The materials listing `c`: those before the last one, and the last one when it lists `c`. */
  lemma ListingStep(matCells: seq<seq<nat>>, c: nat)
    requires |matCells| > 0
    ensures var n := |matCells| - 1;
            |set m: nat | m < n + 1 && c in matCells[m]|
            == |set m: nat | m < n && c in matCells[..n][m]| + (if c in matCells[n] then 1 else 0)
  {
    var n := |matCells| - 1;
    var before := set m: nat | m < n && c in matCells[..n][m];
    var after := set m: nat | m < n + 1 && c in matCells[m];
    assert before == set m: nat | m < n && c in matCells[m];
    if c in matCells[n] {
      assert after == before + {n};
    } else {
      assert after == before;
    }
  }

  /** The regathered materials of every cell come in non-decreasing material order. */
  lemma RegatheredInMaterialOrder(matCells: seq<seq<nat>>, c: nat)
    ensures |Concat(matCells)| == Sum(Lengths(matCells))
    ensures NonDecreasing(Select(Concat(matCells), Owners(Lengths(matCells)), c))
  {
    ConcatLength(matCells);
    OwnersShape(Lengths(matCells));
    SelectNonDecreasing(Concat(matCells), Owners(Lengths(matCells)), c);
  }
}
