/**
 * The stage bookkeeping of Portage's UberDriver (portage/driver/uberdriver.h).
 *
 * UberDriver records which entity kinds and field types it remaps, which
 * stages (search, mesh intersection, material intersection) have run,
 * and forwards each stage to a per-kind CoreDriver.  The CoreDrivers are
 * not part of this model: what they return is given by a `CoreResults`
 * value, and every call the UberDriver makes into them is appended to a
 * ghost call log, so the contracts can say which calls are made, with
 * which arguments and in which order.
 */
module Driver {
  import opened Sequences
  import IntersectR2d

  // ---------------------------------------------------------------------
  // Vocabulary
  // ---------------------------------------------------------------------

  /** Wonton::Entity_kind; the kinds past CELL and NODE behave alike here. */
  datatype EntityKind = Cell | Node | Face | Edge

  /** Wonton::Field_type. */
  datatype FieldType = UnknownField | MeshField | MultiMaterialField

  /** Portage's Limiter_type, Boundary_Limiter_type and fixup options. */
  datatype Limiter = NoLimiter | BarthJespersen
  datatype BoundaryLimiter = BndNoLimiter | BndZeroGradient | BndBarthJespersen
  datatype PartialFixup = Constant | LocallyConservative | ShiftedConservative
  datatype EmptyFixup = LeaveEmpty | Extrapolate

  /** Candidate source entities per target entity, and intersection weights per target entity. */
  type Candidates = seq<seq<nat>>
  datatype Weight = Weight(entityId: nat, moments: seq<real>)
  type Weights = seq<seq<Weight>>

  /** The trailing arguments of `interpolate`, which are handed on to the CoreDriver untouched. */
  datatype InterpolateOptions = InterpolateOptions(
    lowerBound: real, upperBound: real,
    limiter: Limiter, bndLimiter: BoundaryLimiter,
    partialFixup: PartialFixup, emptyFixup: EmptyFixup,
    conservationTol: real, maxFixupIter: int)

  /** The queries the UberDriver makes of the source state wrapper. */
  datatype SourceState = SourceState(
    entityOf: string -> EntityKind,
    fieldTypeOf: (EntityKind, string) -> FieldType,
    names: seq<string>,
    numMaterials: int)

  /** What the CoreDrivers' search and intersection stages return. */
  datatype CoreResults = CoreResults(
    search: EntityKind -> Candidates,
    intersectMeshes: (EntityKind, Candidates) -> Weights,
    intersectMaterials: Candidates -> seq<Weights>)

  /** One call from the UberDriver into a CoreDriver. */
  datatype CoreCall =
    | CreateDriver(kind: EntityKind)
    | SetDistanceVolumeTols(kind: EntityKind, minAbsoluteDistance: real, minAbsoluteVolume: real)
    | SetNumTols(kind: EntityKind, tols: IntersectR2d.NumericTolerances)
    | Search(kind: EntityKind)
    | IntersectMeshes(kind: EntityKind, candidates: Candidates)
    | CheckMismatch(kind: EntityKind, weights: Weights)
    | IntersectMaterials(candidates: Candidates)
    | SourceGradient(kind: EntityKind, name: string, limiter: Limiter, bndLimiter: BoundaryLimiter)
    | CacheMultimatGradientStencils
    | MaterialSourceGradient(name: string, limiter: Limiter, bndLimiter: BoundaryLimiter, material: nat)
    | InterpolateMeshVar(kind: EntityKind, src: string, trg: string, weights: Weights, withGradients: bool)
    | FixMismatch(kind: EntityKind, src: string, trg: string, lowerBound: real, upperBound: real,
                  conservationTol: real, maxFixupIter: int, partialFixup: PartialFixup, emptyFixup: EmptyFixup)
    | InterpolateMatVar(src: string, trg: string, weightsByMat: seq<Weights>, withGradients: bool)

  datatype Outcome<T> = Success(value: T) | Failure(message: string)

  datatype Status = Ok | Error(message: string)

  /** `m[k]` on a std::map<Entity_kind, bool>: a missing key reads as false. */
  predicate Flag(m: map<EntityKind, bool>, k: EntityKind) {
    k in m && m[k]
  }

  function MarkIf(m: map<EntityKind, bool>, k: EntityKind, b: bool): map<EntityKind, bool> {
    if b then m[k := true] else m
  }

  // ---------------------------------------------------------------------
  // What the constructors record
  // ---------------------------------------------------------------------

  /** remap_kind_ after the variables `vars` were recorded, starting from {CELL: false, NODE: false}. */
  function RemapKinds(src: SourceState, vars: seq<string>): map<EntityKind, bool> {
    if vars == [] then map[Cell := false, Node := false]
    else RemapKinds(src, vars[..|vars| - 1])[src.entityOf(vars[|vars| - 1]) := true]
  }

  /** The field type of each listed variable, in list order. */
  function TypesOf(src: SourceState, vars: seq<string>): (r: seq<FieldType>)
    ensures |r| == |vars|
    ensures forall i :: 0 <= i < |vars| ==> r[i] == src.fieldTypeOf(src.entityOf(vars[i]), vars[i])
  {
    seq(|vars|, i requires 0 <= i < |vars| => src.fieldTypeOf(src.entityOf(vars[i]), vars[i]))
  }

  /** A kind is marked for remapping exactly when some listed variable lives on it; CELL and NODE are always keys. */
  lemma {:induction false} RemapKindsFlag(src: SourceState, vars: seq<string>, k: EntityKind)
    ensures Cell in RemapKinds(src, vars) && Node in RemapKinds(src, vars)
    ensures Flag(RemapKinds(src, vars), k) <==> exists i :: 0 <= i < |vars| && src.entityOf(vars[i]) == k
  {
    if vars != [] {
      var p := vars[..|vars| - 1];
      RemapKindsFlag(src, p, k);
      if Flag(RemapKinds(src, p), k) {
        var i :| 0 <= i < |p| && src.entityOf(p[i]) == k;
        assert vars[i] == p[i];
      }
      if exists i :: 0 <= i < |vars| && src.entityOf(vars[i]) == k {
        var i :| 0 <= i < |vars| && src.entityOf(vars[i]) == k;
        if i < |p| {
          assert p[i] == vars[i];
        }
      }
    }
  }

  /** field_types_: every field type of a listed variable, exactly once, in first-seen order. */
  lemma FieldTypesRecorded(src: SourceState, vars: seq<string>)
    ensures NoDuplicates(Dedup(TypesOf(src, vars)))
    ensures forall ft :: ft in Dedup(TypesOf(src, vars)) <==>
      exists i :: 0 <= i < |vars| && src.fieldTypeOf(src.entityOf(vars[i]), vars[i]) == ft
    ensures forall ft :: ft in Dedup(TypesOf(src, vars)) ==> ft in TypesOf(src, vars)
    ensures forall i, j :: 0 <= i < j < |Dedup(TypesOf(src, vars))| ==>
      FirstIndex(TypesOf(src, vars), Dedup(TypesOf(src, vars))[i])
        < FirstIndex(TypesOf(src, vars), Dedup(TypesOf(src, vars))[j])
  {
    var ts := TypesOf(src, vars);
    DedupElements(ts);
    DedupNoDuplicates(ts);
    DedupFirstOccurrenceOrder(ts);
    forall ft ensures ft in ts <==> exists i :: 0 <= i < |vars| && src.fieldTypeOf(src.entityOf(vars[i]), vars[i]) == ft {
      if ft in ts {
        var i :| 0 <= i < |ts| && ts[i] == ft;
        assert src.fieldTypeOf(src.entityOf(vars[i]), vars[i]) == ft;
      }
    }
  }

  /** What recording one more variable adds to the kinds, the field types and the multi-material flag. */
  lemma RecordStep(src: SourceState, vars: seq<string>, i: nat)
    requires i < |vars|
    ensures RemapKinds(src, vars[..i + 1]) == RemapKinds(src, vars[..i])[src.entityOf(vars[i]) := true]
    ensures var ft := src.fieldTypeOf(src.entityOf(vars[i]), vars[i]);
      && TypesOf(src, vars[..i + 1]) == TypesOf(src, vars[..i]) + [ft]
      && Dedup(TypesOf(src, vars[..i + 1]))
         == (if ft in Dedup(TypesOf(src, vars[..i])) then Dedup(TypesOf(src, vars[..i]))
             else Dedup(TypesOf(src, vars[..i])) + [ft])
      && (MultiMaterialField in TypesOf(src, vars[..i + 1])
          <==> MultiMaterialField in TypesOf(src, vars[..i]) || ft == MultiMaterialField)
  {
    var ft := src.fieldTypeOf(src.entityOf(vars[i]), vars[i]);
    assert vars[..i + 1][..i] == vars[..i];
    assert TypesOf(src, vars[..i + 1]) == TypesOf(src, vars[..i]) + [ft];
    DedupSnoc(TypesOf(src, vars[..i]), ft);
  }

  // ---------------------------------------------------------------------
  // The CoreDriver calls each stage makes
  // ---------------------------------------------------------------------

  /** search followed by intersect_meshes on one kind, and the mismatch check when it is on. */
  function KindWeightsCalls(core: CoreResults, k: EntityKind, checkMismatch: bool): seq<CoreCall> {
    var candidates := core.search(k);
    [Search(k), IntersectMeshes(k, candidates)]
      + (if checkMismatch then [CheckMismatch(k, core.intersectMeshes(k, candidates))] else [])
  }

  /** The calls compute_interpolation_weights makes: CELL first, then NODE. */
  function WeightsCalls(core: CoreResults, cell: bool, node: bool, multiMat: bool, checkMismatch: bool): seq<CoreCall> {
    (if cell then
       KindWeightsCalls(core, Cell, checkMismatch)
       + (if multiMat then [IntersectMaterials(core.search(Cell))] else [])
     else [])
    + (if node then KindWeightsCalls(core, Node, checkMismatch) else [])
  }

  /**
   * In the calls compute_interpolation_weights makes, every intersection
   * directly follows the search on the same kind, whose candidates it is
   * given; a kind is searched exactly when it is remapped; its mismatch is
   * checked exactly when it is remapped and checking is on; the material
   * intersection happens exactly for remapped cells with multi-material
   * fields, right after the cell stages.
   */
  lemma {:induction false} WeightsCallsOrder(core: CoreResults, cell: bool, node: bool, multiMat: bool, check: bool)
    ensures forall j :: (0 <= j < |WeightsCalls(core, cell, node, multiMat, check)| &&
                         WeightsCalls(core, cell, node, multiMat, check)[j].IntersectMeshes?) ==>
      j > 0 && WeightsCalls(core, cell, node, multiMat, check)[j - 1]
        == Search(WeightsCalls(core, cell, node, multiMat, check)[j].kind)
      && WeightsCalls(core, cell, node, multiMat, check)[j].candidates
        == core.search(WeightsCalls(core, cell, node, multiMat, check)[j].kind)
    ensures Search(Cell) in WeightsCalls(core, cell, node, multiMat, check) <==> cell
    ensures Search(Node) in WeightsCalls(core, cell, node, multiMat, check) <==> node
    ensures (exists j :: (0 <= j < |WeightsCalls(core, cell, node, multiMat, check)| &&
                          WeightsCalls(core, cell, node, multiMat, check)[j].CheckMismatch?)) <==> check && (cell || node)
    ensures (exists j :: (0 <= j < |WeightsCalls(core, cell, node, multiMat, check)| &&
                          WeightsCalls(core, cell, node, multiMat, check)[j].IntersectMaterials?)) <==> cell && multiMat
  {
    var cs := WeightsCalls(core, cell, node, multiMat, check);
    var cellPart := if cell then KindWeightsCalls(core, Cell, check)
        + (if multiMat then [IntersectMaterials(core.search(Cell))] else []) else [];
    var nodePart := if node then KindWeightsCalls(core, Node, check) else [];
    assert cs == cellPart + nodePart;
    forall j | 0 <= j < |cs| && cs[j].IntersectMeshes?
      ensures j > 0 && cs[j - 1] == Search(cs[j].kind) && cs[j].candidates == core.search(cs[j].kind)
    {
      if j < |cellPart| {
        assert cs[j] == cellPart[j];
        assert j == 1 && cellPart[0] == Search(Cell);
      } else {
        assert cs[j] == nodePart[j - |cellPart|];
        assert j - |cellPart| == 1 && nodePart[0] == Search(Node);
        assert cs[j - 1] == nodePart[0];
      }
    }
    if cell {
      assert cs[0] == Search(Cell);
    }
    if node {
      assert cs[|cellPart|] == Search(Node);
    }
    if check && (cell || node) {
      if cell {
        assert cs[2].CheckMismatch?;
      } else {
        assert cs[2].CheckMismatch?;
      }
    }
    if cell && multiMat {
      assert cs[|cellPart| - 1].IntersectMaterials?;
    }
  }

  /** The calls interpolate_mesh_var makes on CELL or NODE. */
  function MeshVarCalls(k: EntityKind, src: string, trg: string, weights: Weights, opts: InterpolateOptions,
                        order: nat, checkMismatch: bool, hasMismatch: bool): seq<CoreCall>
  {
    (if order == 2 then [SourceGradient(k, src, opts.limiter, opts.bndLimiter)] else [])
    + [InterpolateMeshVar(k, src, trg, weights, order == 2)]
    + (if checkMismatch && hasMismatch then
         [FixMismatch(k, src, trg, opts.lowerBound, opts.upperBound,
                      opts.conservationTol, opts.maxFixupIter, opts.partialFixup, opts.emptyFixup)]
       else [])
  }

  /**
   * interpolate_mesh_var interpolates exactly once; it computes a gradient
   * exactly when the interpolator is second order, and then before the
   * interpolation, which is given it; it repairs the mismatch exactly when
   * checking is on and the CoreDriver found one, and then after.
   */
  lemma MeshVarCallsOrder(k: EntityKind, src: string, trg: string, weights: Weights, opts: InterpolateOptions,
                          order: nat, check: bool, hasMismatch: bool)
    ensures var cs := MeshVarCalls(k, src, trg, weights, opts, order, check, hasMismatch);
      && |cs| == 1 + (if order == 2 then 1 else 0) + (if check && hasMismatch then 1 else 0)
      && (order == 2 <==> cs[0] == SourceGradient(k, src, opts.limiter, opts.bndLimiter))
      && cs[if order == 2 then 1 else 0] == InterpolateMeshVar(k, src, trg, weights, order == 2)
      && (check && hasMismatch <==> cs[|cs| - 1].FixMismatch?)
  {}

  /** The calls interpolate_mat_var makes when Tangram is available. */
  function MatVarCalls(src: string, trg: string, weightsByMat: seq<Weights>, limiter: Limiter,
                       bndLimiter: BoundaryLimiter, order: nat, nbMats: nat): seq<CoreCall>
  {
    if order == 2 then
      [CacheMultimatGradientStencils] + MaterialGradients(src, limiter, bndLimiter, nbMats)
      + [InterpolateMatVar(src, trg, weightsByMat, true)]
    else [InterpolateMatVar(src, trg, weightsByMat, false)]
  }

  lemma MaterialGradientsSnoc(src: string, limiter: Limiter, bndLimiter: BoundaryLimiter, n: nat)
    ensures MaterialGradients(src, limiter, bndLimiter, n + 1)
         == MaterialGradients(src, limiter, bndLimiter, n) + [MaterialSourceGradient(src, limiter, bndLimiter, n)]
  {
    assert MaterialGradients(src, limiter, bndLimiter, n + 1)[..n] == MaterialGradients(src, limiter, bndLimiter, n);
  }

  /** One source gradient per material, materials 0 .. n-1 in order. */
  function MaterialGradients(src: string, limiter: Limiter, bndLimiter: BoundaryLimiter, n: nat): (r: seq<CoreCall>)
    ensures |r| == n
    ensures forall i :: 0 <= i < n ==> r[i] == MaterialSourceGradient(src, limiter, bndLimiter, i)
  {
    seq(n, i requires 0 <= i < n => MaterialSourceGradient(src, limiter, bndLimiter, i))
  }

  // ---------------------------------------------------------------------
  // The driver
  // ---------------------------------------------------------------------

  class UberDriver {
    /** The source state wrapper and the CoreDrivers' results. */
    const source: SourceState
    const core: CoreResults
    /** Whether Portage was built with Tangram (PORTAGE_HAS_TANGRAM). */
    const tangram: bool

    var sourceVarsToRemap: seq<string>
    var fieldTypes: seq<FieldType>
    var remapKind: map<EntityKind, bool>
    var haveMultiMaterialFields: bool
    var doCheckMismatch: bool
    var searchCompleted: map<EntityKind, bool>
    var meshIntersectionCompleted: map<EntityKind, bool>
    var matIntersectionCompleted: bool
    /** Whether driver_cell_ / driver_node_ point to a CoreDriver. */
    var hasCellDriver: bool
    var hasNodeDriver: bool
    var sourceWeights: map<EntityKind, Weights>
    var sourceWeightsByMat: seq<Weights>

    /** Every call made into a CoreDriver, oldest first. */
    ghost var log: seq<CoreCall>

    /**
     * What the constructor established about the remapped variables, and
     * that the material intersection only runs when cells are remapped.
     */
    ghost predicate Valid()
      reads this`sourceVarsToRemap, this`fieldTypes, this`remapKind, this`haveMultiMaterialFields
      reads this`hasCellDriver, this`hasNodeDriver, this`matIntersectionCompleted
    {
      && remapKind == RemapKinds(source, sourceVarsToRemap)
      && Cell in remapKind && Node in remapKind
      && fieldTypes == Dedup(TypesOf(source, sourceVarsToRemap))
      && haveMultiMaterialFields == (MultiMaterialField in TypesOf(source, sourceVarsToRemap))
      && hasCellDriver == remapKind[Cell]
      && hasNodeDriver == remapKind[Node]
      && (matIntersectionCompleted ==> remapKind[Cell])
    }

    /** The constructor taking the list of variables to remap. */
    constructor WithVariables(src: SourceState, sourceDim: nat, targetDim: nat, vars: seq<string>,
                              coreResults: CoreResults, withTangram: bool)
      requires sourceDim == targetDim
      ensures Valid()
      ensures source == src && core == coreResults && tangram == withTangram
      ensures sourceVarsToRemap == vars && doCheckMismatch
      ensures searchCompleted == MarkIfFalse(MarkIfFalse(map[], Node, remapKind[Node]), Cell, remapKind[Cell])
      ensures meshIntersectionCompleted == searchCompleted
      ensures !matIntersectionCompleted && sourceWeights == map[] && sourceWeightsByMat == []
      ensures log == (if remapKind[Node] then [CreateDriver(Node)] else [])
                   + (if remapKind[Cell] then [CreateDriver(Cell)] else [])
    {
      source, core, tangram := src, coreResults, withTangram;
      sourceVarsToRemap := vars;
      doCheckMismatch := true;
      searchCompleted, meshIntersectionCompleted, matIntersectionCompleted := map[], map[], false;
      hasCellDriver, hasNodeDriver := false, false;
      sourceWeights, sourceWeightsByMat := map[], [];
      log := [];
      new;
      RecordAndInstantiate();
    }

    /** The constructor without a list: every variable of the source state is remapped. */
    constructor AllVariables(src: SourceState, sourceDim: nat, targetDim: nat,
                             coreResults: CoreResults, withTangram: bool)
      requires sourceDim == targetDim
      ensures Valid()
      ensures source == src && core == coreResults && tangram == withTangram
      ensures sourceVarsToRemap == src.names && doCheckMismatch
      ensures searchCompleted == MarkIfFalse(MarkIfFalse(map[], Node, remapKind[Node]), Cell, remapKind[Cell])
      ensures meshIntersectionCompleted == searchCompleted
      ensures !matIntersectionCompleted && sourceWeights == map[] && sourceWeightsByMat == []
      ensures log == (if remapKind[Node] then [CreateDriver(Node)] else [])
                   + (if remapKind[Cell] then [CreateDriver(Cell)] else [])
    {
      source, core, tangram := src, coreResults, withTangram;
      // source_vars_to_remap_ is still empty when it is tested, so every
      // name of the source state is taken
      sourceVarsToRemap := src.names;
      doCheckMismatch := true;
      searchCompleted, meshIntersectionCompleted, matIntersectionCompleted := map[], map[], false;
      hasCellDriver, hasNodeDriver := false, false;
      sourceWeights, sourceWeightsByMat := map[], [];
      log := [];
      new;
      RecordAndInstantiate();
    }

    /**
     * The part both constructors share once the fields are initialised:
     * record the listed variables, then instantiate the CoreDrivers.
     */
    method RecordAndInstantiate()
      requires searchCompleted == map[] && meshIntersectionCompleted == map[] && !matIntersectionCompleted
      requires !hasCellDriver && !hasNodeDriver && log == []
      modifies this`remapKind, this`fieldTypes, this`haveMultiMaterialFields
      modifies this`searchCompleted, this`meshIntersectionCompleted, this`hasNodeDriver, this`hasCellDriver, this`log
      ensures Valid()
      ensures searchCompleted == MarkIfFalse(MarkIfFalse(map[], Node, remapKind[Node]), Cell, remapKind[Cell])
      ensures meshIntersectionCompleted == searchCompleted
      ensures log == (if remapKind[Node] then [CreateDriver(Node)] else [])
                   + (if remapKind[Cell] then [CreateDriver(Cell)] else [])
    {
      RecordVariables();
      InstantiateCoreDrivers();
    }

    /** The constructors' loop over the listed variables. */
    method RecordVariables()
      modifies this`remapKind, this`fieldTypes, this`haveMultiMaterialFields
      ensures remapKind == RemapKinds(source, sourceVarsToRemap)
      ensures fieldTypes == Dedup(TypesOf(source, sourceVarsToRemap))
      ensures haveMultiMaterialFields == (MultiMaterialField in TypesOf(source, sourceVarsToRemap))
      ensures Cell in remapKind && Node in remapKind
    {
      remapKind := map[Cell := false, Node := false];
      fieldTypes := [];
      haveMultiMaterialFields := false;
      var vars := sourceVarsToRemap;
      for i := 0 to |vars|
        invariant remapKind == RemapKinds(source, vars[..i])
        invariant fieldTypes == Dedup(TypesOf(source, vars[..i]))
        invariant haveMultiMaterialFields == (MultiMaterialField in TypesOf(source, vars[..i]))
      {
        var name := vars[i];
        var onwhat := source.entityOf(name);
        remapKind := remapKind[onwhat := true];
        var fieldtype := source.fieldTypeOf(onwhat, name);
        RecordStep(source, vars, i);
        if fieldtype !in fieldTypes {
          fieldTypes := fieldTypes + [fieldtype];
        }
        if fieldtype == MultiMaterialField {
          haveMultiMaterialFields := true;
        }
      }
      assert vars[..|vars|] == vars;
      RemapKindsFlag(source, vars, Cell);
    }

    /**
     * instantiate_core_drivers: for each remapped kind, NODE first, reset
     * its stage flags and create its CoreDriver.
     */
    method InstantiateCoreDrivers()
      requires Cell in remapKind && Node in remapKind
      modifies this`searchCompleted, this`meshIntersectionCompleted, this`hasNodeDriver, this`hasCellDriver, this`log
      ensures searchCompleted == MarkIfFalse(MarkIfFalse(old(searchCompleted), Node, remapKind[Node]), Cell, remapKind[Cell])
      ensures meshIntersectionCompleted
        == MarkIfFalse(MarkIfFalse(old(meshIntersectionCompleted), Node, remapKind[Node]), Cell, remapKind[Cell])
      ensures hasNodeDriver == (old(hasNodeDriver) || remapKind[Node])
      ensures hasCellDriver == (old(hasCellDriver) || remapKind[Cell])
      ensures log == old(log) + (if remapKind[Node] then [CreateDriver(Node)] else [])
                              + (if remapKind[Cell] then [CreateDriver(Cell)] else [])
    {
      if remapKind[Node] {
        searchCompleted := searchCompleted[Node := false];
        meshIntersectionCompleted := meshIntersectionCompleted[Node := false];
        hasNodeDriver := true;
        log := log + [CreateDriver(Node)];
      }
      if remapKind[Cell] {
        searchCompleted := searchCompleted[Cell := false];
        meshIntersectionCompleted := meshIntersectionCompleted[Cell := false];
        hasCellDriver := true;
        log := log + [CreateDriver(Cell)];
      }
    }

    /** search<K>: marks the stage first, then asks K's CoreDriver; kinds other than CELL and NODE throw. */
    method SearchOn(k: EntityKind) returns (r: Outcome<Candidates>)
      requires Valid()
      requires k == Cell ==> hasCellDriver
      requires k == Node ==> hasNodeDriver
      modifies this`searchCompleted, this`log
      ensures Valid()
      ensures searchCompleted == old(searchCompleted)[k := true]
      ensures k == Cell || k == Node ==> r == Success(core.search(k)) && log == old(log) + [Search(k)]
      ensures k != Cell && k != Node ==> r == Failure("unsupported field type") && log == old(log)
    {
      searchCompleted := searchCompleted[k := true];
      match k
      case Cell =>
        log := log + [Search(Cell)];
        r := Success(core.search(Cell));
      case Node =>
        log := log + [Search(Node)];
        r := Success(core.search(Node));
      case _ =>
        r := Failure("unsupported field type");
    }

    /**
     * intersect_meshes<K>: K's CoreDriver intersects, checks for a mesh
     * mismatch when that is switched on, and the stage is marked done.
     */
    method IntersectMeshesOn(k: EntityKind, candidates: Candidates) returns (r: Outcome<Weights>)
      requires Valid()
      requires k == Cell ==> hasCellDriver
      requires k == Node ==> hasNodeDriver
      modifies this`meshIntersectionCompleted, this`log
      ensures Valid()
      ensures k == Cell || k == Node ==>
        && r == Success(core.intersectMeshes(k, candidates))
        && meshIntersectionCompleted == old(meshIntersectionCompleted)[k := true]
        && log == old(log) + [IntersectMeshes(k, candidates)]
                + (if doCheckMismatch then [CheckMismatch(k, core.intersectMeshes(k, candidates))] else [])
      ensures k != Cell && k != Node ==>
        r == Failure("unsupported field type") && meshIntersectionCompleted == old(meshIntersectionCompleted)
        && log == old(log)
    {
      if k == Cell || k == Node {
        var weights := core.intersectMeshes(k, candidates);
        log := log + [IntersectMeshes(k, candidates)];
        if doCheckMismatch {
          log := log + [CheckMismatch(k, weights)];
        }
        meshIntersectionCompleted := meshIntersectionCompleted[k := true];
        r := Success(weights);
      } else {
        r := Failure("unsupported field type");
      }
    }

    /** intersect_materials: only with cells remapped; marks the material stage done. */
    method IntersectMaterialsOn(candidates: Candidates) returns (r: seq<Weights>)
      requires Valid()
      requires remapKind[Cell]
      modifies this`matIntersectionCompleted, this`log
      ensures Valid() && matIntersectionCompleted
      ensures r == core.intersectMaterials(candidates)
      ensures log == old(log) + [IntersectMaterials(candidates)]
    {
      matIntersectionCompleted := true;
      log := log + [IntersectMaterials(candidates)];
      r := core.intersectMaterials(candidates);
    }

    /**
     * compute_interpolation_weights: for CELL, then NODE, when remapped:
     * search, intersect and keep the weights; per-material weights for
     * cells when there are multi-material fields, from the same candidates.
     */
    method ComputeInterpolationWeights()
      requires Valid()
      modifies this`searchCompleted, this`meshIntersectionCompleted, this`sourceWeights, this`matIntersectionCompleted, this`sourceWeightsByMat, this`log
      ensures Valid()
      ensures log == old(log) + WeightsCalls(core, remapKind[Cell], remapKind[Node], haveMultiMaterialFields, doCheckMismatch)
      ensures searchCompleted == MarkIf(MarkIf(old(searchCompleted), Cell, remapKind[Cell]), Node, remapKind[Node])
      ensures meshIntersectionCompleted
        == MarkIf(MarkIf(old(meshIntersectionCompleted), Cell, remapKind[Cell]), Node, remapKind[Node])
      ensures matIntersectionCompleted == (old(matIntersectionCompleted) || (remapKind[Cell] && haveMultiMaterialFields))
      ensures sourceWeights == StoreIf(StoreIf(old(sourceWeights), Cell, remapKind[Cell], core), Node, remapKind[Node], core)
      ensures sourceWeightsByMat == if remapKind[Cell] && haveMultiMaterialFields
        then core.intersectMaterials(core.search(Cell)) else old(sourceWeightsByMat)
    {
      ghost var log0 := log;
      ghost var cellCalls := if remapKind[Cell] then KindWeightsCalls(core, Cell, doCheckMismatch)
        + (if haveMultiMaterialFields then [IntersectMaterials(core.search(Cell))] else []) else [];
      ghost var nodeCalls := if remapKind[Node] then KindWeightsCalls(core, Node, doCheckMismatch) else [];
      if remapKind[Cell] {
        CellStage();
      }
      assert log == log0 + cellCalls;
      if remapKind[Node] {
        var _ := WeighKind(Node);
      }
      assert log == log0 + cellCalls + nodeCalls;
      AppendAssoc(log0, cellCalls, nodeCalls);
    }

    /** The CELL part of compute_interpolation_weights. */
    method CellStage()
      requires Valid() && remapKind[Cell]
      modifies this`searchCompleted, this`meshIntersectionCompleted, this`sourceWeights, this`matIntersectionCompleted, this`sourceWeightsByMat, this`log
      ensures Valid()
      ensures log == old(log) + KindWeightsCalls(core, Cell, doCheckMismatch)
        + (if haveMultiMaterialFields then [IntersectMaterials(core.search(Cell))] else [])
      ensures searchCompleted == old(searchCompleted)[Cell := true]
      ensures meshIntersectionCompleted == old(meshIntersectionCompleted)[Cell := true]
      ensures sourceWeights == old(sourceWeights)[Cell := core.intersectMeshes(Cell, core.search(Cell))]
      ensures matIntersectionCompleted == (old(matIntersectionCompleted) || haveMultiMaterialFields)
      ensures sourceWeightsByMat == if haveMultiMaterialFields then core.intersectMaterials(core.search(Cell))
                                    else old(sourceWeightsByMat)
    {
      var candidates := WeighKind(Cell);
      if haveMultiMaterialFields {
        sourceWeightsByMat := IntersectMaterialsOn(candidates);
      }
    }

    /** search and then intersect_meshes on one remapped kind, keeping the weights. */
    method WeighKind(k: EntityKind) returns (candidates: Candidates)
      requires Valid() && (k == Cell || k == Node) && remapKind[k]
      modifies this`searchCompleted, this`meshIntersectionCompleted, this`sourceWeights, this`log
      ensures Valid()
      ensures candidates == core.search(k)
      ensures log == old(log) + KindWeightsCalls(core, k, doCheckMismatch)
      ensures searchCompleted == old(searchCompleted)[k := true]
      ensures meshIntersectionCompleted == old(meshIntersectionCompleted)[k := true]
      ensures sourceWeights == old(sourceWeights)[k := core.intersectMeshes(k, core.search(k))]
    {
      var found := SearchOn(k);
      candidates := found.value;
      var weights := IntersectMeshesOn(k, candidates);
      sourceWeights := sourceWeights[k := weights.value];
    }

    /** set_num_tols(distance, volume): forwarded to each remapped kind's CoreDriver. */
    method SetDistanceVolumeTolerances(minAbsoluteDistance: real, minAbsoluteVolume: real)
      requires Valid()
      modifies this`log
      ensures log == old(log)
        + (if remapKind[Cell] then [SetDistanceVolumeTols(Cell, minAbsoluteDistance, minAbsoluteVolume)] else [])
        + (if remapKind[Node] then [SetDistanceVolumeTols(Node, minAbsoluteDistance, minAbsoluteVolume)] else [])
    {
      if remapKind[Cell] {
        log := log + [SetDistanceVolumeTols(Cell, minAbsoluteDistance, minAbsoluteVolume)];
      }
      if remapKind[Node] {
        log := log + [SetDistanceVolumeTols(Node, minAbsoluteDistance, minAbsoluteVolume)];
      }
    }

    /** set_num_tols(NumericTolerances_t): forwarded to each remapped kind's CoreDriver. */
    method SetNumericTolerances(tols: IntersectR2d.NumericTolerances)
      requires Valid()
      modifies this`log
      ensures log == old(log)
        + (if remapKind[Cell] then [SetNumTols(Cell, tols)] else [])
        + (if remapKind[Node] then [SetNumTols(Node, tols)] else [])
    {
      if remapKind[Cell] {
        log := log + [SetNumTols(Cell, tols)];
      }
      if remapKind[Node] {
        log := log + [SetNumTols(Node, tols)];
      }
    }

    method SetCheckMismatchFlag(check: bool)
      requires Valid()
      modifies this`doCheckMismatch
      ensures doCheckMismatch == check
    {
      doCheckMismatch := check;
    }

    /** The weights stored for kind `k`; std::map's operator[] reads a missing entry as empty. */
    function WeightsOn(k: EntityKind): Weights
      reads this`sourceWeights
    {
      if k in sourceWeights then sourceWeights[k] else []
    }

    /**
     * interpolate with distinct source and target names.  The variable must
     * live on `onwhat` and that kind's mesh intersection must be done; a
     * variable not in the remap list is an error; multi-material variables
     * go down the material path (only with Tangram, and then only on cells
     * after the material intersection), the others down the mesh path with
     * the stored weights.  `order` is the interpolator's order and
     * `coreHasMismatch` what the CoreDriver reports.
     */
    method InterpolateRenamed(srcVarName: string, trgVarName: string, onwhat: EntityKind,
                              opts: InterpolateOptions, order: nat, coreHasMismatch: bool) returns (r: Status)
      requires Valid()
      requires source.entityOf(srcVarName) == onwhat
      requires Flag(meshIntersectionCompleted, onwhat)
      requires tangram && srcVarName in sourceVarsToRemap
               && source.fieldTypeOf(onwhat, srcVarName) == MultiMaterialField ==>
               matIntersectionCompleted && onwhat == Cell && source.numMaterials > 0
      requires source.fieldTypeOf(onwhat, srcVarName) != MultiMaterialField ==>
               (onwhat == Cell ==> hasCellDriver) && (onwhat == Node ==> hasNodeDriver)
      modifies this`log
      ensures srcVarName !in sourceVarsToRemap ==>
        r == Error(srcVarName + " not in field variables list") && log == old(log)
      ensures srcVarName in sourceVarsToRemap ==> r == Ok
      ensures srcVarName in sourceVarsToRemap && source.fieldTypeOf(onwhat, srcVarName) == MultiMaterialField ==>
        log == old(log) + (if tangram then MatVarCalls(srcVarName, trgVarName, sourceWeightsByMat, opts.limiter,
                                                        opts.bndLimiter, order, source.numMaterials as nat)
                           else [])
      ensures srcVarName in sourceVarsToRemap && source.fieldTypeOf(onwhat, srcVarName) != MultiMaterialField ==>
        log == old(log) + (if onwhat == Cell || onwhat == Node
                           then MeshVarCalls(onwhat, srcVarName, trgVarName, WeightsOn(onwhat), opts, order,
                                             doCheckMismatch, coreHasMismatch)
                           else [])
    {
      if srcVarName !in sourceVarsToRemap {
        return Error(srcVarName + " not in field variables list");
      }
      if source.fieldTypeOf(onwhat, srcVarName) == MultiMaterialField {
        if tangram {
          r := InterpolateMaterialVar(srcVarName, trgVarName, sourceWeightsByMat, opts, order);
        } else {
          r := Ok;
        }
      } else {
        r := InterpolateMeshVariable(srcVarName, trgVarName, onwhat, WeightsOn(onwhat), opts, order, coreHasMismatch);
      }
    }

    /** interpolate with the same name on source and target. */
    method Interpolate(varName: string, onwhat: EntityKind, opts: InterpolateOptions, order: nat,
                       coreHasMismatch: bool) returns (r: Status)
      requires Valid()
      requires source.entityOf(varName) == onwhat
      requires Flag(meshIntersectionCompleted, onwhat)
      requires tangram && varName in sourceVarsToRemap
               && source.fieldTypeOf(onwhat, varName) == MultiMaterialField ==>
               matIntersectionCompleted && onwhat == Cell && source.numMaterials > 0
      requires source.fieldTypeOf(onwhat, varName) != MultiMaterialField ==>
               (onwhat == Cell ==> hasCellDriver) && (onwhat == Node ==> hasNodeDriver)
      modifies this`log
      ensures varName !in sourceVarsToRemap ==>
        r == Error(varName + " not in field variables list") && log == old(log)
      ensures varName in sourceVarsToRemap ==> r == Ok
      ensures varName in sourceVarsToRemap && source.fieldTypeOf(onwhat, varName) == MultiMaterialField ==>
        log == old(log) + (if tangram then MatVarCalls(varName, varName, sourceWeightsByMat, opts.limiter,
                                                        opts.bndLimiter, order, source.numMaterials as nat)
                           else [])
      ensures varName in sourceVarsToRemap && source.fieldTypeOf(onwhat, varName) != MultiMaterialField ==>
        log == old(log) + (if onwhat == Cell || onwhat == Node
                           then MeshVarCalls(onwhat, varName, varName, WeightsOn(onwhat), opts, order,
                                             doCheckMismatch, coreHasMismatch)
                           else [])
    {
      r := InterpolateRenamed(varName, varName, onwhat, opts, order, coreHasMismatch);
    }

    /**
     * interpolate_mesh_var with explicit weights: on CELL or NODE, an
     * optional gradient, the interpolation, and the mismatch repair when
     * checking is on and the CoreDriver found a mismatch; nothing on other
     * kinds.
     */
    method InterpolateMeshVariable(srcVarName: string, trgVarName: string, onwhat: EntityKind, weights: Weights,
                                   opts: InterpolateOptions, order: nat, coreHasMismatch: bool) returns (r: Status)
      requires Valid()
      requires source.entityOf(srcVarName) == onwhat
      requires onwhat == Cell ==> hasCellDriver
      requires onwhat == Node ==> hasNodeDriver
      modifies this`log
      ensures srcVarName !in sourceVarsToRemap ==>
        r == Error(srcVarName + " not in field variables list") && log == old(log)
      ensures srcVarName in sourceVarsToRemap ==>
        (r == Ok && log == old(log) +
          (if onwhat == Cell || onwhat == Node
           then MeshVarCalls(onwhat, srcVarName, trgVarName, weights, opts, order, doCheckMismatch, coreHasMismatch)
           else []))
    {
      if srcVarName !in sourceVarsToRemap {
        return Error(srcVarName + " not in field variables list");
      }
      if onwhat == Cell || onwhat == Node {
        if order == 2 {
          log := log + [SourceGradient(onwhat, srcVarName, opts.limiter, opts.bndLimiter)];
          log := log + [InterpolateMeshVar(onwhat, srcVarName, trgVarName, weights, true)];
        } else {
          log := log + [InterpolateMeshVar(onwhat, srcVarName, trgVarName, weights, false)];
        }
        if doCheckMismatch && coreHasMismatch {
          log := log + [FixMismatch(onwhat, srcVarName, trgVarName, opts.lowerBound, opts.upperBound,
                                    opts.conservationTol, opts.maxFixupIter, opts.partialFixup, opts.emptyFixup)];
        }
      }
      r := Ok;
    }

    /** The per-material gradient loop of interpolate_mat_var: materials 0 .. n-1 in order. */
    method LogMaterialGradients(name: string, limiter: Limiter, bndLimiter: BoundaryLimiter, n: nat)
      requires Valid()
      modifies this`log
      ensures log == old(log) + MaterialGradients(name, limiter, bndLimiter, n)
    {
      for i := 0 to n
        invariant log == old(log) + MaterialGradients(name, limiter, bndLimiter, i)
      {
        MaterialGradientsSnoc(name, limiter, bndLimiter, i);
        log := log + [MaterialSourceGradient(name, limiter, bndLimiter, i)];
      }
    }

    /**
     * interpolate_mat_var with explicit per-material weights.  Only the
     * limiters and the order reach the CoreDriver: the bounds, fixup types,
     * tolerance and iteration cap are ignored.  Without Tangram it does
     * nothing past the list check.
     */
    method InterpolateMaterialVar(srcVarName: string, trgVarName: string, weightsByMat: seq<Weights>,
                                  opts: InterpolateOptions, order: nat) returns (r: Status)
      requires Valid()
      requires source.entityOf(srcVarName) == Cell
      requires tangram && srcVarName in sourceVarsToRemap ==> source.numMaterials > 0
      modifies this`log
      ensures srcVarName !in sourceVarsToRemap ==>
        r == Error(srcVarName + " not in field variables list") && log == old(log)
      ensures srcVarName in sourceVarsToRemap ==>
        (r == Ok && log == old(log) +
          (if tangram then MatVarCalls(srcVarName, trgVarName, weightsByMat, opts.limiter, opts.bndLimiter,
                                       order, source.numMaterials as nat)
           else []))
    {
      if srcVarName !in sourceVarsToRemap {
        return Error(srcVarName + " not in field variables list");
      }
      if tangram {
        var nbMats := source.numMaterials;
        if order == 2 {
          ghost var log0 := log;
          log := log + [CacheMultimatGradientStencils];
          LogMaterialGradients(srcVarName, opts.limiter, opts.bndLimiter, nbMats);
          log := log + [InterpolateMatVar(srcVarName, trgVarName, weightsByMat, true)];
          AppendAround(log0, CacheMultimatGradientStencils, MaterialGradients(srcVarName, opts.limiter, opts.bndLimiter, nbMats),
                       InterpolateMatVar(srcVarName, trgVarName, weightsByMat, true));
        } else {
          log := log + [InterpolateMatVar(srcVarName, trgVarName, weightsByMat, false)];
        }
      }
      r := Ok;
    }
  }

  function MarkIfFalse(m: map<EntityKind, bool>, k: EntityKind, b: bool): map<EntityKind, bool> {
    if b then m[k := false] else m
  }

  /** Appending `a` and then `b` appends `a + b`. */
  lemma AppendAssoc<T>(log: seq<T>, a: seq<T>, b: seq<T>)
    ensures log + a + b == log + (a + b)
  {}

  /** Appending `x`, then `middle`, then `y` appends `[x] + middle + [y]`. */
  lemma AppendAround<T>(log: seq<T>, x: T, middle: seq<T>, y: T)
    ensures log + [x] + middle + [y] == log + ([x] + middle + [y])
  {}

  /** sourceWeights after compute_interpolation_weights stored kind `k`'s intersection, when it did. */
  function StoreIf(m: map<EntityKind, Weights>, k: EntityKind, b: bool, core: CoreResults): map<EntityKind, Weights> {
    if b then m[k := core.intersectMeshes(k, core.search(k))] else m
  }

  /**
   * In the calls of the material path, second order computes one gradient
   * per material 0 .. nbMats-1, after caching the stencils and before the
   * one interpolation, which is given them; first order only interpolates.
   */
  lemma MatVarCallsShape(src: string, trg: string, w: seq<Weights>, limiter: Limiter,
                         bndLimiter: BoundaryLimiter, order: nat, nbMats: nat)
    ensures var cs := MatVarCalls(src, trg, w, limiter, bndLimiter, order, nbMats);
      && |cs| == (if order == 2 then nbMats + 2 else 1)
      && cs[|cs| - 1] == InterpolateMatVar(src, trg, w, order == 2)
      && (order == 2 ==> cs[0] == CacheMultimatGradientStencils)
      && (order == 2 ==> forall m :: 0 <= m < nbMats ==> cs[m + 1] == MaterialSourceGradient(src, limiter, bndLimiter, m))
  {}
}
