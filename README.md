# Portage remap core in Dafny

Portage remaps fields from a source mesh to a target mesh. First it
searches for candidate source entities. Then it intersects each target
entity with its candidates, which gives intersection moments (weights).
Last it interpolates the fields with those weights. This project models
three parts of it:

- **`IntersectR2d`** models `intersect_polys_r2d`. This function returns
  the moments of the intersection of a source polygon with a target
  polygon, in Cartesian or cylindrical-axisymmetric coordinates.
  - A convex target is clipped once, by its own faces.
  - A non-convex target is cut into a fan of triangles around a centre
    point. The centre is the area-weighted trial centroid when every edge
    is visible from it. Otherwise it is the centroid of the target's
    feasible set. Each triangle clips a fresh copy of the source, and
    moments 0..2 are summed.
  - The r2d routines (faces from vertices, clip, reduce) and the
    axisymmetric moment shift are parameters of the model.
  - `r2d_orient` is defined here, as the signed area of a triangle.
- **`Driver`** models the `UberDriver` class, which runs the remap stages
  for CELL and NODE fields.
  - It is a class with the same fields as the C++ object: the stage
    flags, the kinds to remap, the field types and the stored weights.
  - The per-kind CoreDrivers are outside the model. Their results enter as
    a `CoreResults` value. Every call made into them, except
    `has_mismatch`, is appended to a ghost log, so each contract states
    which calls are made, in what order, and with which arguments. The
    answer of `has_mismatch` is the method parameter `coreHasMismatch`
    (see Left out).
  - A failed C++ `assert` becomes a precondition. A thrown exception
    becomes an error result.
- **`AppArguments`** and **`MaterialData`** model the data handling of the
  multi-material application `portageapp_multimat_jali`:
  - splitting `--keyword=value` arguments and comma-separated expressions;
  - the offsets into flattened per-cell material arrays;
  - collecting distinct material ids in first-appearance order;
  - converting cell-centric material data to material-centric data;
  - naming the materials;
  - regathering the target's material-centric data into cell-centric
    arrays.
- **`Sequences`** holds the sequence vocabulary the others share:
  - first-occurrence deduplication, counts and sums;
  - `Select`, the values stored under one key, in order;
  - `Concat`, flattening, and `Owners`, the block each flattened entry
    belongs to.

C++ `std::vector`s of the application are modelled as sequence values.
Integers are unbounded. Doubles are `real`.

## Model

| member | source | states |
|---|---|---|
| IntersectR2d.IntersectPolys | portage/intersect/intersect_polys_r2d.h:30-183 | The moment vector has 3 entries in Cartesian and 6 in axisymmetric coordinates, except where the foreign shift's result is returned as it is. Empty source or target gives all-zero moments. A convex target gives the source clipped by the target's faces and reduced, shifted only in axisymmetric coordinates. A non-convex target gives the fan sums of entries 0..2 around `FanCentre`, with the higher entries zero and no shift. The model stops with `Indeterminate` exactly where the code divides by a zero `area_sum` or a zero feasible-set area. The `center_point_ok` flag ends true exactly when the trial centre sees every edge. |
| IntersectR2d.Zeros | portage/intersect/intersect_polys_r2d.h:43 | The initial moment vector has the requested length, and every entry is zero. |
| IntersectR2d.TrialSums | portage/intersect/intersect_polys_r2d.h:100-107 | The loop leaves `area_sum` equal to the fan area rooted at vertex 0 and `cen` equal to the area-weighted sum of the triangle centroids. |
| IntersectR2d.TrialAreaTelescope | portage/intersect/intersect_polys_r2d.h:100-107 | Twice the partial fan area equals the shoelace sum of the first edges minus the cross term of the closing edge. |
| IntersectR2d.TrialAreaIsShoelace | portage/intersect/intersect_polys_r2d.h:100-107 | Over the whole ring, `area_sum` is the polygon's signed area by the shoelace formula. |
| IntersectR2d.TriangleTrialCentre | portage/intersect/intersect_polys_r2d.h:92-113 | For a counter-clockwise triangle the trial centre is the mean of its vertices, and it sees every edge, so the fallback is not taken. |
| IntersectR2d.CheckCentre | portage/intersect/intersect_polys_r2d.h:111-113 | The visibility loop leaves the flag true exactly when it was true and the point sees every edge with non-negative orientation. |
| IntersectR2d.AccumulateFan | portage/intersect/intersect_polys_r2d.h:157-179 | Each of entries 0..2 is the sum, over all edges, of the moments of the source clipped by the triangle (centre, edge start, edge end). The other entries stay zero. |
| Driver.UberDriver.WithVariables | portage/driver/uberdriver.h:124-156 | It records the listed variables, the kinds they live on (CELL and NODE are always keys), the distinct field types in first-seen order and whether a multi-material field is present. Mismatch checking starts on. It then creates CoreDrivers, NODE first, for the remapped kinds only. |
| Driver.UberDriver.AllVariables | portage/driver/uberdriver.h:167-201 | The same as `WithVariables`, with every variable of the source state remapped. |
| Driver.UberDriver.RecordAndInstantiate | portage/driver/uberdriver.h:140-155 | From the freshly initialised fields, the shared tail of both constructors leaves the object valid (flags, field types and drivers agree with the variable list), resets the stage flags of the remapped kinds only, and logs the creation of their CoreDrivers, NODE first. |
| Driver.UberDriver.RecordVariables | portage/driver/uberdriver.h:142-151 | After the loop, `remap_kind_`, `field_types_` and `have_multi_material_fields_` are the functions of the variable list. Nothing else changes. |
| Driver.RemapKindsFlag | portage/driver/uberdriver.h:142-151 | A kind is marked for remapping exactly when some listed variable lives on it. |
| Driver.FieldTypesRecorded | portage/driver/uberdriver.h:142-151 | `field_types_` holds each field type of a listed variable exactly once, in first-seen order. |
| Driver.RecordStep | portage/driver/uberdriver.h:142-151 | One more variable marks its kind, appends its field type when it is new, and sets the multi-material flag when that type is multi-material. |
| Driver.UberDriver.InstantiateCoreDrivers | portage/driver/uberdriver.h:861-878 | For NODE and then CELL, when the kind is remapped, its stage flags are reset and its CoreDriver is created. No other field changes. |
| Driver.UberDriver.ComputeInterpolationWeights | portage/driver/uberdriver.h:268-282 | The CoreDriver calls are exactly `WeightsCalls`. The stage flags and stored weights are updated for the remapped kinds. Per-material weights come from the cell candidates when multi-material fields are present. |
| Driver.WeightsCallsOrder | portage/driver/uberdriver.h:268-282 | Each intersection directly follows the search on its kind and uses that search's candidates. A kind is searched exactly when it is remapped. A mismatch check happens exactly when checking is on and some kind is remapped. The material intersection happens exactly for remapped cells with multi-material fields. |
| Driver.UberDriver.SearchOn | portage/driver/uberdriver.h:345-352 | It marks the search done on the kind before the dispatch. CELL and NODE return their CoreDriver's candidates. Any other kind is the "unsupported field type" error, with no call made. |
| Driver.UberDriver.IntersectMeshesOn | portage/driver/uberdriver.h:374-396 | CELL and NODE intersect, check the mismatch when checking is on, mark the stage done and return the weights. Other kinds fail and change nothing. |
| Driver.UberDriver.IntersectMaterialsOn | portage/driver/uberdriver.h:441-445 | It needs remapped cells. It marks the material stage done and returns the cell CoreDriver's per-material weights. |
| Driver.UberDriver.SetDistanceVolumeTolerances | portage/driver/uberdriver.h:296-301 | The two tolerances go to the CELL and then the NODE CoreDriver, each only when its kind is remapped. No field changes. |
| Driver.UberDriver.SetNumericTolerances | portage/driver/uberdriver.h:310-313 | The tolerance record goes to the CELL and then the NODE CoreDriver, each only when its kind is remapped. No field changes. |
| Driver.UberDriver.SetCheckMismatchFlag | portage/driver/uberdriver.h:326-328 | Only the mismatch-check flag changes, and it becomes the argument. |
| Driver.UberDriver.InterpolateRenamed | portage/driver/uberdriver.h:542-580 | A variable not in the remap list is the "not in field variables list" error, with no call made. A multi-material variable goes down the material path, only with Tangram. Any other variable goes down the mesh path with the weights stored for its kind, or empty weights when none are stored. |
| Driver.UberDriver.Interpolate | portage/driver/uberdriver.h:488-502 | It is `InterpolateRenamed` with the source name used as the target name. |
| Driver.UberDriver.InterpolateMeshVariable | portage/driver/uberdriver.h:628-696 | A name not in the remap list is an error. Otherwise, on CELL or NODE, the calls are exactly `MeshVarCalls`; other kinds make no call. |
| Driver.MeshVarCallsOrder | portage/driver/uberdriver.h:628-696 | A second-order interpolator computes a gradient first, then the one interpolation. The mismatch repair comes last, exactly when checking is on and the CoreDriver found a mismatch. |
| Driver.UberDriver.InterpolateMaterialVar | portage/driver/uberdriver.h:736-780 | A name not in the remap list is an error. With Tangram the calls are exactly `MatVarCalls`, which receives only the limiters and the order of the options: the bounds, fixup types, tolerance and iteration cap never reach the CoreDriver. Without Tangram no call is made. |
| Driver.UberDriver.LogMaterialGradients | portage/driver/uberdriver.h:767-770 | The loop computes one source gradient per material, materials 0 to n-1 in order. |
| Driver.MatVarCallsShape | portage/driver/uberdriver.h:762-778 | Second order caches the stencils, computes one gradient per material and then interpolates once with them. First order only interpolates. |
| AppArguments.FindFrom | app/portageapp/portageapp_multimat_jali.cc:267 | `find_first_of` from a start position: no index exactly when the character does not occur at or after the start. Otherwise an index at or after the start holding the character, with no occurrence between the start and it. The keyword split at line 237 searches from 0. |
| AppArguments.SplitArgument | app/portageapp/portageapp_multimat_jali.cc:234-239 | An argument shorter than two characters is an error (`substr` throws). Without an '=', the keyword is everything after the first two characters and the value is the whole argument. With one, the keyword runs from index 2 to the first '=' (to the end if that '=' is at index 0 or 1) and the value follows the '='. |
| AppArguments.SplitArgumentRoundTrip | app/portageapp/portageapp_multimat_jali.cc:234-239 | Writing a two-character prefix, an '='-free keyword, '=' and a value, then splitting, gives back the keyword and the value. |
| AppArguments.SplitArgumentWithoutEquals | app/portageapp/portageapp_multimat_jali.cc:237-239 | Without an '=', the value is the whole argument. |
| AppArguments.SplitExpressions | app/portageapp/portageapp_multimat_jali.cc:261-276 | The loop appends the comma-separated pieces of the list, in order, to the expressions already collected. |
| AppArguments.PiecesJoin | app/portageapp/portageapp_multimat_jali.cc:264-275 | Joining with commas the pieces cut from any start position gives back the rest of the list, and no piece contains a comma. |
| AppArguments.PiecesCount | app/portageapp/portageapp_multimat_jali.cc:264-275 | From any start position, there is one piece more than there are commas in the rest of the list. |
| AppArguments.SplitJoin | app/portageapp/portageapp_multimat_jali.cc:261-276 | Joining the pieces with commas gives back the list, and no piece contains a comma. |
| AppArguments.SplitCount | app/portageapp/portageapp_multimat_jali.cc:261-276 | There is one piece more than there are commas. |
| MaterialData.ComputeOffsets | app/portageapp/portageapp_multimat_jali.cc:558-561 | Each cell's offset is the sum of the material counts of the cells before it. |
| MaterialData.BlocksInOrder | app/portageapp/portageapp_multimat_jali.cc:558-561 | Each cell's block of the flattened arrays ends no later than the next cell's block starts, and lies within the total. |
| MaterialData.CollectMaterialIds | app/portageapp/portageapp_multimat_jali.cc:565-581 | `mat_ids` is the first-appearance deduplication of the flattened cell material ids, and `nmats` is its length. |
| MaterialData.CollectCellIds | app/portageapp/portageapp_multimat_jali.cc:567-580 | After one cell's entries, the ids found are the first-appearance deduplication of the flattened ids up to the end of that cell's block. |
| MaterialData.KnownId | app/portageapp/portageapp_multimat_jali.cc:569-574 | The search of the ids found so far reports `found` exactly when the id is among them. |
| Sequences.DedupElements | app/portageapp/portageapp_multimat_jali.cc:565-581 | An id is in the deduplicated list exactly when it occurs in the input. |
| Sequences.DedupNoDuplicates | app/portageapp/portageapp_multimat_jali.cc:565-581 | The deduplicated list has no repeated id. |
| Sequences.DedupFirstOccurrenceOrder | app/portageapp/portageapp_multimat_jali.cc:565-581 | The deduplicated ids are ordered by where they first occur. |
| MaterialData.ToMaterialCentric | app/portageapp/portageapp_multimat_jali.cc:611-623 | For every material m, its cell list, volume fractions and, when given, centroids are the owning cells and values of exactly the entries whose id is m, in flattened order (`Gather`). Without centroids every centroid list is empty. |
| MaterialData.TransposeCell | app/portageapp/portageapp_multimat_jali.cc:613-622 | The inner loop over cell c's entries extends the per-material lists from the transposition of the entries before cell c's block to that of the entries up to its end. |
| MaterialData.GatherStep | app/portageapp/portageapp_multimat_jali.cc:615-620 | One more entry with id m appends its value to material m's list and leaves every other material's list unchanged. |
| MaterialData.MaterialCellsMembership | app/portageapp/portageapp_multimat_jali.cc:611-623 | Cell c is in material m's list exactly when m is among cell c's material ids. |
| MaterialData.MaterialCellsSorted | app/portageapp/portageapp_multimat_jali.cc:614-618 | Each material's cell list is non-decreasing and holds only valid cell indices. |
| MaterialData.MaterialCentricTotal | app/portageapp/portageapp_multimat_jali.cc:611-623 | The material-centric lists together hold as many entries as the flattened arrays. |
| MaterialData.MaterialName | app/portageapp/portageapp_multimat_jali.cc:629-631 | The name is "mat" followed by the decimal id, and parsing that suffix gives back the id. |
| MaterialData.DecimalRoundTrip | app/portageapp/portageapp_multimat_jali.cc:630 | Parsing the decimal text of an integer gives back the integer. |
| MaterialData.MaterialNameInjective | app/portageapp/portageapp_multimat_jali.cc:629-631 | Two ids have the same name exactly when they are equal. |
| MaterialData.MaterialNames | app/portageapp/portageapp_multimat_jali.cc:627-631 | As written: name m is built from `mat_ids[m]`. |
| MaterialData.MaterialNamesDistinct | app/portageapp/portageapp_multimat_jali.cc:627-631 | Distinct ids give distinct names. |
| MaterialData.NamesByFirstAppearanceDisagree | app/portageapp/portageapp_multimat_jali.cc:611-632 | For two cells holding materials 1 and 0, the material registered under name "mat1" gets material 0's cell list. |
| MaterialData.MaterialNamesByIndex | app/portageapp/portageapp_multimat_jali.cc:627-631 | Corrected: name m is built from m, the index that `matcells` uses. |
| MaterialData.NamesByIndexAgreeWithCells | app/portageapp/portageapp_multimat_jali.cc:611-632 | With names built from the index, cell c is in the list registered under a name exactly when the id that name spells is among cell c's materials. |
| MaterialData.RegatherTarget | app/portageapp/portageapp_multimat_jali.cc:808-840 | The offsets are the prefix sums of the target cells' material counts. Each cell's count is the number of times the cell occurs in the materials' cell lists. The ids, volume fractions and centroids are `Layout` of the materials' flattened lists: each cell's block holds, in material order, the entries that list the cell, and its unused slots keep their initial values. |
| MaterialData.RegatheredCount | app/portageapp/portageapp_multimat_jali.cc:820-840 | When no material's cell list repeats a cell, the final `target_cell_num_mats[c]` is the number of materials whose cell list contains c. |
| MaterialData.ScatterMaterials | app/portageapp/portageapp_multimat_jali.cc:820-840 | The material loop, started from zero counts and initial slots, leaves the counts and the three arrays equal to `Counts` and `Layout` of all materials' lists. |
| MaterialData.ScatterMaterial | app/portageapp/portageapp_multimat_jali.cc:830-839 | One material's cells are each written at their cell's next free slot, with that cell's count incremented: the counts and arrays go from `Counts`/`Layout` of the entries placed before to those of the entries placed before followed by this material's. |
| MaterialData.LayoutStep | app/portageapp/portageapp_multimat_jali.cc:833-838 | Placing one more entry for cell c, while c's block has room, writes exactly the slot `offsets[c] + ncmats` and changes no other slot. |
| MaterialData.CountsStep | app/portageapp/portageapp_multimat_jali.cc:833-838 | Placing one more entry for cell c increments c's count and no other. |
| MaterialData.LayoutAt | app/portageapp/portageapp_multimat_jali.cc:834-837 | Slot k of cell c holds the k-th value stored for c when k is below c's count, and the initial value otherwise. |
| MaterialData.RegatheredMaterials | app/portageapp/portageapp_multimat_jali.cc:820-840 | Material m fills a slot of cell c exactly when m is a material and c is in its cell list. |
| MaterialData.RegatheredInMaterialOrder | app/portageapp/portageapp_multimat_jali.cc:820-840 | Each cell's material ids come out in non-decreasing order. |

## Left out

- The r2d routines `r2d_poly_faces_from_verts`, `r2d_clip` and `r2d_reduce`, and `shift_moments_list`, are foreign code. They are parameters. `r2d_init_poly` is not a parameter: a polygon is modelled as the vertex ring it is initialised from, so initialising is the identity. `r2d_reduce` is constrained only to fill `R2D_NUM_MOMENTS` entries. `shift_moments_list` is left uninterpreted, so nothing is promised about the length of a shifted vector.
- Doubles become `real`; infinities, NaN and rounding are not modelled.
- IntersectR2d.IntersectPolys: the model stops with `Indeterminate` at a zero `area_sum` or a zero feasible-set area. The source does not stop there: it divides and goes on with an infinite or NaN centre. With an infinite centre, an orientation can come out as minus infinity, which clears `center_point_ok` and leads to the feasible-set centre and a finite fan result. With a NaN centre, every `< 0.` test is false, and the fan is built around NaN. A zero feasible-set area likewise gives an infinite or NaN centre that the source fans around.
- IntersectR2d.IntersectPolys: it requires at least three target vertices on the non-convex path. With one or two, the source writes `verts2[1]` and `verts2[2]` past the end of the array, which is undefined behaviour.
- IntersectR2d.IntersectPolys: the `NumericTolerances_t` argument is accepted and never read, as in the source.
- Only the area identity of the trial centroid and the triangle case are proved. That the trial centre is the polygon's centroid for any ring needs nonlinear real arithmetic that the model does not carry.
- The CoreDriver's search, intersection, mismatch analysis, gradients, interpolation and fixup are outside the model. Their results are the `CoreResults` parameter. Whether a mismatch was found (the CoreDriver's `has_mismatch`) is the parameter `coreHasMismatch` and is not logged as a call. The interpolator's order is a method parameter too.
- Driver.UberDriver.SearchOn: on CELL or NODE it requires that kind's CoreDriver to exist. `instantiate_core_drivers` creates a CoreDriver only for a remapped kind, and on any other kind the source dereferences an empty `std::unique_ptr`, which is undefined behaviour.
- Driver.UberDriver.IntersectMeshesOn: the same requirement on the CoreDriver of CELL or NODE, for the same reason.
- Driver.UberDriver.InterpolateRenamed: the same requirement for a variable that is not multi-material, whose mesh path calls the kind's CoreDriver.
- Driver.UberDriver.Interpolate: the same requirement as `InterpolateRenamed`, which it calls.
- Driver.UberDriver.InterpolateMeshVariable: the same requirement on the CoreDriver of CELL or NODE, for the same reason.
- AppArguments.SplitArgument: strings are sequences of characters, while `std::string` positions count bytes. The two agree whenever the argument's first two characters are ASCII, because UTF-8 never places '=' or ',' inside a multi-byte character. They differ otherwise: for "é" (one character, two bytes) the source returns an empty keyword and the whole argument, where the model fails with `out_of_range`; and an argument starting with a multi-byte character has its keyword start inside that character's bytes in the source.
- AppArguments.SplitArgumentRoundTrip: it holds for any two-character prefix; the program gives the keyword back only when that prefix is two bytes, that is, two ASCII characters.
- `set_interface_reconstructor_options` exists only with Tangram and only forwards to the cell CoreDriver. It is not modelled.
- MPI distribution, the executor and the mesh and state wrappers are not modelled.
- Entity kinds are limited to CELL, NODE, FACE and EDGE. Every stage treats FACE and EDGE as unsupported kinds.
- The default argument values of the C++ signatures are not modelled. Callers pass every option.
- The remaining steps of the application are not modelled: reading meshes and material files, the ExprTk field expressions, interface reconstruction, adding materials and cell data to the state wrappers, error norms and file output. The keyword dispatch and the `stoi` conversions are also out.
- MaterialData.ToMaterialCentric: it requires every material id to lie in `[0, nmats)`. The source indexes `matcells` by the raw id and does not check it.
- MaterialData.RegatherTarget: it requires each target cell to occur in the materials' cell lists no more often than `cell_get_num_mats` reports. Its count equals the number of materials listing the cell only when no cell list repeats a cell (`RegatheredCount`). The source relies on the state wrapper for this and would write into the next cell's block otherwise.
- MaterialData.RegatherTarget: the centroid type is generic, and a centroid is copied whole rather than coordinate by coordinate.
- The application's vectors are modelled as values. Resizing `offsets` in place and `std::map::operator[]` inserting missing keys are not modelled, except that reading a missing weights key yields empty weights.

## Findings

| source | as written | input that shows it | evidently intended | confidence | as-written member | corrected member |
|---|---|---|---|---|---|---|
| app/portageapp/portageapp_multimat_jali.cc:611-632 | `matcells[m]` collects the cells of material id `m`, but `matnames[m]` is built from `mat_ids[m]`, the m-th id in first-appearance order. `add_material` then pairs that name with `matcells[m]`. | Two cells with one material each and `cell_mat_ids = [1, 0]`: `mat_ids = [1, 0]`, so "mat1" is registered with `matcells[0] = [1]`, which is material 0's cell. | Name material m "mat" followed by m, so that each name goes with its own cell list. | medium; not executed | MaterialData.MaterialNames, MaterialData.NamesByFirstAppearanceDisagree | MaterialData.MaterialNamesByIndex, MaterialData.NamesByIndexAgreeWithCells |

Two behaviours of `intersect_polys_r2d` are kept as the code has them:

- When no valid centre point is found, the code builds a
  `std::runtime_error` at portage/intersect/intersect_polys_r2d.h:131 and
  :154 but never throws it. The comments at :129 and :152 and the error
  message show that failing was meant. The code goes on with the last
  centre it computed. `IntersectPolys` does the same and exposes the
  `center_point_ok` flag as its ghost result `centreOk`.
- The fan loop adds up only moments 0..2 and never calls the axisymmetric
  shift (:177-178).
