# ATS field storage, thaw-depth evaluators and XDMF reader: a Dafny model

This project models a set of small, sequential components of the Arctic Terrestrial Simulator (ATS), an Amanzi-based code. It proves properties of each.

- **Field storage** (`field.dfy`, module `FieldStore`). A `Field` owns a two-dimensional buffer of vectors × mesh entities, plus metadata.
  - Writes and write access are guarded in a fixed order: first the owning process kernel (PK), then the cell location, then the mesh block.
  - The six `set_data` overloads overwrite the whole buffer, vector 0, every vector with one value, or only the cells of a mesh block.
  - Assignment copies values and metadata into the existing buffer. The copy constructor makes a fresh buffer.
- **Sub-grid selector evaluators** (`subgrid_select.dfy` for the shared logic, then `depression_depth.dfy`, `excluded_volume.dfy` and `drag_exponent.dfy`). Each reads three keys from its parameter list, and an empty key defaults to `getKey(domain, <variable>)`. Each then writes, cell by cell, the initial value where the polygon-entity flag is exactly 1 and the evolution value elsewhere.
- **Column evaluators** (`column_subsidence.dfy`, `initial_elevation.dfy`, and `column_evaluator.dfy` for the shared rules). `column_id.dfy` parses the column id with the exact behaviour of `find_last_of` and `std::stoi`, which is the integer after the last `_` of the domain name. The evaluators then:
  - build the `column_<id>` keys;
  - write a single cell;
  - force one update through the one-shot `updated_once_` flag;
  - apply `EnsureCompatibility`'s parameter defaults.
- **XDMF visualisation reader** (`xdmf_vis.dfy`, `xdmf_mesh.dfy`, `xdmf_ordering.dfy`, and `numpy_index.dfy` for numpy indexing). The non-I/O logic of `VisFile` is modelled:
  - default file names and the time-unit table;
  - `filterIndices` and `filterCycles`;
  - variable-name mangling;
  - element-type table and splitting the mixed-element connectivity;
  - `structuredOrdering`, meaning key completion and the permutation it returns;
  - `reorder`.
- `results.dfy` holds the `Option`, `Result` and `Outcome` wrappers. `keys.dfy` holds the Teuchos parameter-list reads and the `Keys` oracle.

**Modelling choices**
- Exceptions are error values. Each operation that can throw returns a `Result` or `Outcome` and leaves the state unchanged on the error path (where the source has a partial effect before it throws, "Left out" says so).
- `Keys::getDomain` and `Keys::getKey` are not part of this model. They are a `KeyOps` pair of function values passed in.
- The mesh is given as face and cell counts plus a map from block id to cell ids. Geometry, such as the top face centroid, is an input.
- The base evaluator's own `HasFieldChanged` answer is an input.
- Values in field buffers are `real`.
- In `structuredOrdering` the centroids have already been rounded to a fixed number of decimals, so they are integers (the value scaled by a power of ten).

**Where the code and its documentation differ, the model follows the code**
- The repository's description centres on the nonlinear Krylov accelerator. Only its header is present, so the accelerator is not modelled (see "Left out").
- The `filterCycles` docstring says `-1` stands for the last cycle. The code only looks up `-1` like any other cycle number, and so does the model.

## Model

Paths are relative to the repository root.

| member | source | states |
|---|---|---|
| Keys.GetString | src/pks/flow/constitutive_relations/thaw_depth/depression_depth_evaluator.cc:21-25 | `plist.get<std::string>(name)` succeeds exactly when the entry exists and holds a string, and returns that string. A missing entry is a MissingParameter error. |
| Keys.GetBoolOr | src/pks/flow/constitutive_relations/thaw_depth/column_subsidence_evaluator.cc:97-99 | `plist.get<bool>(name, default)` gives the default when the entry is absent. It fails exactly when the entry is present but not a bool, and otherwise returns the stored value. |
| ColumnId.FindLastOf | src/pks/flow/constitutive_relations/thaw_depth/column_subsidence_evaluator.cc:21 | `find_last_of` is npos exactly when the character is absent. Otherwise it is an index holding the character with no later occurrence. |
| ColumnId.SuffixAfterLastUnderscore | src/pks/flow/constitutive_relations/thaw_depth/column_subsidence_evaluator.cc:21-22 | `substr(pos+1)` is a suffix of the domain with no `_`. With no `_` at all (npos+1 wraps to 0) it is the whole domain. |
| ColumnId.Stoi | src/pks/flow/constitutive_relations/thaw_depth/column_subsidence_evaluator.cc:22 | `std::stoi` gives invalid_argument exactly when no digit follows the leading spaces and optional sign. Any value it returns is within the 32-bit int range. |
| ColumnId.DigitsValueOfDigits | src/pks/flow/constitutive_relations/thaw_depth/column_subsidence_evaluator.cc:25 | Reading back the decimal digits that `<<` prints for a natural number gives that number. |
| ColumnId.StoiOfIntToString | src/pks/flow/constitutive_relations/thaw_depth/column_subsidence_evaluator.cc:22-25 | Round trip: `stoi` of the printed form of any 32-bit id is that id. |
| ColumnId.ColumnIdOfSuffix | src/pks/flow/constitutive_relations/thaw_depth/column_subsidence_evaluator.cc:20-22 | For any prefix and any 32-bit id, the id parsed from `<prefix>_<id>` is the id. |
| ColumnId.ColumnIdOf | src/pks/flow/constitutive_relations/thaw_depth/column_subsidence_evaluator.cc:20-22 | A column id parsed from a domain name always fits in a 32-bit int. |
| ColumnId.ColumnIdOfColumnDomain | src/pks/flow/constitutive_relations/thaw_depth/column_subsidence_evaluator.cc:22-25 | Parsing the id back out of the domain `column_<id>` built from it gives the id. |
| ColumnId.ColumnIdOfSurfaceColumnDomain | src/pks/flow/constitutive_relations/thaw_depth/column_subsidence_evaluator.cc:29-31 | Parsing the id back out of the domain `surface_column_<id>` gives the id. |
| ColumnId.ColumnDomainInjective | src/pks/flow/constitutive_relations/thaw_depth/column_subsidence_evaluator.cc:24-26 | Different 32-bit column ids give different `column_<id>` domains. |
| FieldStore.OwnerCheck | src/state/Field.cc:78-86 | The owner guard passes exactly when the PK name is the owner. Otherwise it reports the PK, the field and the owner. |
| FieldStore.LocationCheck | src/state/Field.cc:89-97 | The location guard passes exactly when the requested location is the field's. Otherwise it reports both locations. |
| FieldStore.BlockCheck | src/state/Field.cc:100-108 | The block guard passes exactly when the mesh knows the cell set id. Otherwise it reports the id. |
| FieldStore.CellWriteGuard | src/state/Field.cc:136-159 | A cell write passes exactly when the PK owns the field, the field is on cells, and any block id is valid. The first failing check, in the order owner, location, block, is the error. |
| FieldStore.InitialSubfieldNames | src/state/Field.cc:39-41 | The subfield names are `[fieldname]` exactly when there is one dof on cells, and are empty otherwise. |
| FieldStore.CopyValues | src/state/Field.cc:126 | Buffer assignment between equal shapes: every destination entry equals the source entry from before the call, even when the two buffers are the same. |
| FieldStore.Field.constructor | src/state/Field.cc:23-42 | A face or cell field gets a fresh zero buffer of `num_dofs` vectors, each the size of the face or cell map. It has io_restart on, io_vis off, and the subfield names above. |
| FieldStore.Field.Copy | src/state/Field.cc:46-57 | The copy has every metadata member of the original and a fresh buffer with equal values. |
| FieldStore.Field.Assign | src/state/Field.cc:60-74 | Self-assignment changes nothing. Otherwise every metadata member is copied, and the other field's values are written into this field's existing buffer. |
| FieldStore.Field.GetData | src/state/Field.cc:111-121 | Write access returns this field's own buffer exactly when the PK is the owner. Otherwise it is an access-denied error. |
| FieldStore.Field.SetAll | src/state/Field.cc:124-127 | Only the owner may write. On success every entry is the source's, and on failure the buffer is unchanged. |
| FieldStore.Field.SetFirstVector | src/state/Field.cc:130-133 | Only the owner may write. On success vector 0 is the given vector. Every other vector is unchanged in all cases. |
| FieldStore.Field.SetEachVector | src/state/Field.cc:136-143 | After the owner and cell-location guards, every entry of vector i is `u[i]`. On failure nothing changes. |
| FieldStore.Field.SetUniform | src/state/Field.cc:146-153 | After the owner and cell-location guards, every entry is `u`. On failure nothing changes. |
| FieldStore.Field.SetEachVectorOnBlock | src/state/Field.cc:156-175 | After the owner, location and block guards, entry (i, c) is `u[i]` for the block's cells. Every other cell keeps its value. On failure nothing changes. |
| FieldStore.Field.SetUniformOnBlock | src/state/Field.cc:178-197 | After the three guards, the block's cells hold `u` in every vector. Other cells keep their values. On failure nothing changes. |
| FieldStore.Field.FillVectors | src/state/Field.cc:140-142 | The loop over vectors leaves entry (i, c) equal to `u[i]` everywhere. |
| FieldStore.Field.FillVectorsOnCells | src/state/Field.cc:169-174 | The loops over vectors and block cells set exactly the listed cells, including repeated ones, and keep every other entry. |
| FieldStore.NewField | src/state/Field.cc:23-42 | Construction fails ("Constant Fields not yet implemented") for the mesh location, and with no vectors when `num_dofs` is below 1 (Epetra refuses such a multivector). Otherwise the new field has the given name, location, mesh, owner, `num_dofs` and `initialized`, and a fresh all-zero buffer of `num_dofs` vectors sized by the face or cell count. io_restart is on, io_vis off. |
| SubgridSelect.Configure | src/pks/flow/constitutive_relations/thaw_depth/depression_depth_evaluator.cc:18-26 | Configuration succeeds exactly when all three keys are strings in the list. An empty key defaults to `getKey(getDomain(key), variable)`, and the three keys are added to the dependencies. |
| SubgridSelect.EvaluateField | src/pks/flow/constitutive_relations/thaw_depth/depression_depth_evaluator.cc:44-59 | Unless the initial key's domain is empty (the assert), every cell is the initial value where the flag is exactly 1 and the evolution value elsewhere. The inputs are read as they were before the call. |
| DepressionDepth.Configure | src/pks/flow/constitutive_relations/thaw_depth/depression_depth_evaluator.cc:18-26 | The "depression depth initial/evolution key" and "polygon entity key" entries are required. An empty key defaults to `getKey(getDomain(""), "depression_depth")`. All three keys become dependencies. |
| DepressionDepth.EvaluateField | src/pks/flow/constitutive_relations/thaw_depth/depression_depth_evaluator.cc:41-61 | For every cell, `result[c]` is `init[c]` if `entity[c] == 1` and `evolve[c]` otherwise. It fails only when the domain is empty. |
| ExcludedVolume.Configure | src/pks/flow/constitutive_relations/thaw_depth/excluded_volume_evaluator.cc:18-26 | As for the depression depth, with the "excluded volume …" keys and the default variable "excluded_volume". |
| ExcludedVolume.EvaluateField | src/pks/flow/constitutive_relations/thaw_depth/excluded_volume_evaluator.cc:41-61 | For every cell, the initial value if the flag is exactly 1, else the evolution value. |
| DragExponent.Configure | src/pks/flow/constitutive_relations/thaw_depth/drag_exponent_evaluator.cc:18-26 | As for the depression depth, with the "drag exponent …" keys and the default variable "drag_exponent". |
| DragExponent.EvaluateField | src/pks/flow/constitutive_relations/thaw_depth/drag_exponent_evaluator.cc:41-61 | For every cell, the initial value if the flag is exactly 1, else the evolution value. |
| ColumnEvaluator.RunForcesAtMostOnce | src/pks/flow/constitutive_relations/thaw_depth/column_subsidence_evaluator.cc:75-86 | Over any sequence of calls, exactly one update is forced if the flag started down and none otherwise. The first answer is then true, every other answer is the base's, and the flag ends up set. |
| ColumnEvaluator.EnsureCompatibility | src/pks/flow/constitutive_relations/thaw_depth/column_subsidence_evaluator.cc:92-108 | An empty key fails the assert. The flags are the stored "visualize <key>" and "checkpoint <key>" values, defaulting to true and false; a stored non-bool is a parameter error. The dependencies are visited only when the space has a mesh. |
| ColumnEvaluator.StoredFlagsWin | src/pks/flow/constitutive_relations/thaw_depth/column_subsidence_evaluator.cc:97-100 | A bool stored under "visualize <key>" or "checkpoint <key>" is the flag used. |
| ColumnSubsidence.Configure | src/pks/flow/constitutive_relations/thaw_depth/column_subsidence_evaluator.cc:20-32 | The constructor as written: it fails exactly when `stoi` of the domain suffix fails. Otherwise it keys base porosity on `column_<id>` and initial elevation on the empty domain, `getKey("", "initial_elevation")`, and adds both to the dependencies. |
| ColumnSubsidence.ConfigureIntended | src/pks/flow/constitutive_relations/thaw_depth/column_subsidence_evaluator.cc:20-32 | The corrected constructor: it fails exactly when the as-written one does, keeps the same base-porosity key, and keys initial elevation on `surface_column_<id>`. |
| ColumnSubsidence.InitElevKeyAsWrittenIgnoresColumn | src/pks/flow/constitutive_relations/thaw_depth/column_subsidence_evaluator.cc:29-31 | As written, two different columns get the same initial-elevation key, although their ids differ. |
| ColumnSubsidence.ConfigureSharesInitElevKey | src/pks/flow/constitutive_relations/thaw_depth/column_subsidence_evaluator.cc:20-32 | As written, two evaluators on different columns have different column ids and yet the same initial-elevation dependency. |
| ColumnSubsidence.InitElevKeyNamesSameColumn | src/pks/flow/constitutive_relations/thaw_depth/column_subsidence_evaluator.cc:29-32 | With the corrected constructor, the initial-elevation domain names the same column id as the base-porosity key. |
| ColumnSubsidence.Subsidence | src/pks/flow/constitutive_relations/thaw_depth/column_subsidence_evaluator.cc:63 | The subsidence is never negative, is at least the elevation drop, and is either 0 or that drop. |
| ColumnSubsidence.ColumnSubsidenceEvaluator.constructor | src/pks/flow/constitutive_relations/thaw_depth/column_subsidence_evaluator.cc:17-34 | The evaluator stores its key, the keys derived from it and the given first value of `updated_once_`. |
| ColumnSubsidence.NewColumnSubsidenceEvaluator | src/pks/flow/constitutive_relations/thaw_depth/column_subsidence_evaluator.cc:17-34 | Construction throws exactly when `stoi` of the domain suffix fails, with that error. Otherwise the fresh evaluator holds the keys `ConfigureIntended` derives from its key and the base dependencies. |
| ColumnSubsidence.ColumnSubsidenceEvaluator.EvaluateField | src/pks/flow/constitutive_relations/thaw_depth/column_subsidence_evaluator.cc:51-65 | Cell 0 receives the non-negative subsidence, and every other cell is untouched. |
| ColumnSubsidence.ColumnSubsidenceEvaluator.HasFieldChanged | src/pks/flow/constitutive_relations/thaw_depth/column_subsidence_evaluator.cc:75-86 | The answer and the new flag are one step of the one-shot rule: the first call forces an update that recomputes cell 0. Once the flag is up, the override itself writes nothing and passes on the base answer. |
| ColumnSubsidence.ColumnSubsidenceEvaluator.EnsureCompatibility | src/pks/flow/constitutive_relations/thaw_depth/column_subsidence_evaluator.cc:89-109 | Exactly the shared rule (same result, same failures) for this evaluator's key and dependencies: stored "visualize"/"checkpoint" values win over the defaults true and false. |
| InitialElevation.Configure | src/pks/flow/constitutive_relations/thaw_depth/initial_elevation_evaluator.cc:20-27 | The constructor fails exactly when `stoi` fails. Otherwise base porosity is keyed on `column_<id>`. |
| InitialElevation.InitialElevationEvaluator.constructor | src/pks/flow/constitutive_relations/thaw_depth/initial_elevation_evaluator.cc:17-27 | The evaluator stores its key, the keys derived from it, and the base dependencies unchanged, since this constructor adds none. `updated_once_` starts at a given value. |
| InitialElevation.NewInitialElevationEvaluator | src/pks/flow/constitutive_relations/thaw_depth/initial_elevation_evaluator.cc:17-27 | Construction throws exactly when `stoi` of the domain suffix fails, with that error. Otherwise the fresh evaluator holds the keys `Configure` derives from its key, and the dependencies are unchanged. |
| InitialElevation.InitialElevationEvaluator.EvaluateField | src/pks/flow/constitutive_relations/thaw_depth/initial_elevation_evaluator.cc:43-53 | Cell 0 is the z coordinate of the top face centroid, and the other cells are untouched. |
| InitialElevation.InitialElevationEvaluator.HasFieldChanged | src/pks/flow/constitutive_relations/thaw_depth/initial_elevation_evaluator.cc:63-74 | The same one-shot step as the subsidence evaluator: the first call recomputes cell 0, and once the flag is up the override itself writes nothing. |
| InitialElevation.InitialElevationEvaluator.EnsureCompatibility | src/pks/flow/constitutive_relations/thaw_depth/initial_elevation_evaluator.cc:77-97 | Exactly the shared rule (same result, same failures): "visualize" defaults to true and "checkpoint" to false unless stored, the dependencies are visited only when there is a mesh, and an empty key fails. |
| NumpyIndex.NormalizeIndex | tools/utils/ats_xdmf.py:87 | An index is valid exactly in `[-n, n)`. A negative index counts from the end. Anything else is an IndexError naming the index and size. |
| NumpyIndex.Take | tools/utils/ats_xdmf.py:87-88 | Fancy indexing succeeds exactly when every index is in bounds. The result has one element per index, in order and with repeats. |
| NumpyIndex.Progression | tools/utils/ats_xdmf.py:87 | The index run of a slice starts at `start`, advances by `step`, stays on the near side of `stop`, ends on the last value before `stop`, and is empty exactly when it has nowhere to go. |
| NumpyIndex.AdjustBound | tools/utils/ats_xdmf.py:87 | Python's slice bound: an in-range bound is kept, a negative one counts from the end, and one beyond either end is clamped to 0 or n (to -1 or n-1 for a negative step). |
| NumpyIndex.SliceIndices | tools/utils/ats_xdmf.py:87 | A slice fails exactly for step 0. Otherwise it is the progression between the adjusted start and stop, with step 1 and the end-dependent defaults for absent parts. |
| NumpyIndex.Range | tools/utils/ats_xdmf.py:87 | `0..n-1` in order. |
| NumpyIndex.FullSlices | tools/utils/ats_xdmf.py:87 | `[:]` keeps every position in order, and `[::-1]` reverses them. |
| NumpyIndex.ProgressionCount | tools/utils/ats_xdmf.py:87 | A unit-step slice has `|stop - start|` elements when it moves toward `stop`. |
| NumpyIndex.FirstIndex | tools/utils/ats_xdmf.py:109 | `argwhere(...)[0]` is the first position holding the value, and is absent when the value is missing. |
| XdmfVis.DataFilename | tools/utils/ats_xdmf.py:30-35 | A given file name is kept. Otherwise it is `visdump_data.h5`, or `visdump_<domain>_data.h5` with a domain. |
| XdmfVis.MeshFilename | tools/utils/ats_xdmf.py:37-42 | The same rule with `_mesh.h5`. |
| XdmfVis.DefaultFilenamesDistinct | tools/utils/ats_xdmf.py:30-42 | Default data file names determine the domain, and never coincide with a default mesh file name. |
| XdmfVis.TimeFactor | tools/utils/ats_xdmf.py:44-55 | Exactly `yr`, `noleap`, `d`, `hr` and `s` are accepted, each with a factor of at least 1, and `yr` has factor 1. Anything else is a ValueError naming the unit. |
| XdmfVis.TimeFactorsAgree | tools/utils/ats_xdmf.py:44-53 | s = 3600·hr, hr = 24·d, d = 365.25·yr, and 365·noleap = d. |
| XdmfVis.VariableName | tools/utils/ats_xdmf.py:154-158 | The domain prefix `<domain>-` is added exactly when a (truthy) domain is set and the name has no `-`, and `.cell.0` is then appended exactly when there is no `.`. |
| XdmfVis.VariableNameKeepsMangled | tools/utils/ats_xdmf.py:154-158 | A name that already has `-` and `.` is left as it is. |
| XdmfVis.VariableNameIdempotent | tools/utils/ats_xdmf.py:154-158 | Mangling twice is mangling once. |
| XdmfVis.CycleIndices | tools/utils/ats_xdmf.py:109 | The lookup succeeds exactly when every requested cycle is stored. It gives, in request order and with repeats, the first index of each. |
| XdmfVis.CycleIndicesAsWrittenAlwaysFails | tools/utils/ats_xdmf.py:109 | As written, string cycle keys compared with int cycles never match, so every non-empty request raises IndexError. |
| XdmfVis.CycleTenNotFoundAsWritten | tools/utils/ats_xdmf.py:71-72 | Concretely: stored cycles "0" and "10" do not yield cycle 10 as written. With numeric cycles they yield index 1. |
| XdmfVis.Requested | tools/utils/ats_xdmf.py:104-105 | An int request becomes a one-element list, and a list is kept as it is. |
| XdmfVis.Selection | tools/utils/ats_xdmf.py:82-87 | An int, a list or a slice selects in-range positions. Each kind fails exactly on its out-of-range index or zero step, and a slice selects exactly its `SliceIndices`. |
| XdmfVis.VisFile.constructor | tools/utils/ats_xdmf.py:27-57 | For a valid time unit: the file names follow the default rule, and the time factor is the table's value. Cycles and times are aligned. |
| XdmfVis.NewVisFile | tools/utils/ats_xdmf.py:27-57 | Construction raises ValueError naming the unit exactly for an invalid time unit. Otherwise it gives a fresh file with the given directory, domain and unit, set up as above. |
| XdmfVis.VisFile.FilterIndices | tools/utils/ats_xdmf.py:87-88 | Cycles and times are both replaced by the same selection. They stay aligned, and on error neither changes. |
| XdmfVis.VisFile.FilterCycles | tools/utils/ats_xdmf.py:104-110 | With numeric cycles: afterwards the cycles are exactly the request, in order and with repeats. Each time is that of the first stored copy of the cycle. A missing cycle raises and changes nothing. |
| XdmfVis.FirstIndexUnique | tools/utils/ats_xdmf.py:109 | A position holding the value with no earlier copy is the first index. |
| XdmfVis.CycleSelection | tools/utils/ats_xdmf.py:104-110 | The first positions of the requested cycles are a valid index list. Selecting them gives back the requested cycles, each paired with the time of its first stored copy. |
| XdmfMesh.ElemType | tools/utils/ats_xdmf.py:236-240 | The code table: 4 is TRIANGLE, 5 QUAD, 8 PRISM and 9 HEX, and no other code names an element type. |
| XdmfMesh.NodesPerElem | tools/utils/ats_xdmf.py:279-286 | Nodes per element: PRISM 6, HEX 8, QUAD 4, TRIANGLE 3. |
| XdmfMesh.Rows | tools/utils/ats_xdmf.py:290-293 | `reshape` of a flat array of k·w entries gives k rows. |
| XdmfMesh.RowsConcat | tools/utils/ats_xdmf.py:293 | Concatenating the reshaped rows gives back the flat array. |
| XdmfMesh.RowAt | tools/utils/ats_xdmf.py:293 | Row i of the reshape is the w entries starting at offset i·w, and that slice lies inside the array. |
| XdmfMesh.RowsAreSlices | tools/utils/ats_xdmf.py:293 | Row i of the reshape is the slice `[i*w, (i+1)*w)`. |
| XdmfMesh.SplitConnectivity | tools/utils/ats_xdmf.py:276-295 | The split succeeds exactly when the first code is known, the length is a multiple of nodes+1, and every row starts with that code. |
| XdmfMesh.SplitRows | tools/utils/ats_xdmf.py:288-295 | On success there are `len/(nodes+1)` rows. Row i is the i-th slice, and it starts with the first row's type code. The rows reassemble into the input. |
| XdmfMesh.RowStartsWith | tools/utils/ats_xdmf.py:293-295 | When every row starts with the type code, row i is the slice `[i*w, (i+1)*w)` and the flat array holds the code at `i*w`. |
| XdmfOrdering.PutFront | tools/utils/ats_xdmf.py:372-377 | `insert(0, name)` behind a `not in` test: afterwards the name is present. The list is unchanged when the name was there, and otherwise it is the name followed by the old list. |
| XdmfOrdering.CompletedOrder | tools/utils/ats_xdmf.py:371-377 | The completed key list contains x, y and (in 3-D) z. |
| XdmfOrdering.PutFrontTwice | tools/utils/ats_xdmf.py:372-375 | Two guarded insertions of different names put in front exactly the names that were missing, the last inserted first, followed by the old list. |
| XdmfOrdering.PutFrontThrice | tools/utils/ats_xdmf.py:372-377 | The same for three different names. |
| XdmfOrdering.CompletedOrderShape | tools/utils/ats_xdmf.py:371-377 | The completed list is the missing axes (z in 3-D, then y, then x) followed by the original keys in their own order. |
| XdmfOrdering.MissingAxesFresh | tools/utils/ats_xdmf.py:371-377 | At most three names are put in front. Each is absent from the original keys, and none appears twice. |
| XdmfOrdering.CompleteOrder | tools/utils/ats_xdmf.py:371-377 | The insertions on the copied list produce exactly the completed key list. |
| XdmfOrdering.SortKey | tools/utils/ats_xdmf.py:388 | numpy's effective sort key has the given fields, then the record's other fields. It always includes `id`. |
| XdmfOrdering.KnownFieldsKey | tools/utils/ats_xdmf.py:379-388 | When the completed keys name no missing field, every key is a field of the records, and the effective sort key is valid and contains `id`. |
| XdmfOrdering.KeyLessIrreflexive | tools/utils/ats_xdmf.py:388 | No record sorts before itself. |
| XdmfOrdering.KeyLessAsymmetric | tools/utils/ats_xdmf.py:388 | Two records never sort before each other. |
| XdmfOrdering.KeyLessTransitive | tools/utils/ats_xdmf.py:388 | Sorting before is transitive. |
| XdmfOrdering.KeyLessTotal | tools/utils/ats_xdmf.py:388 | Because `id` breaks ties, any two different records are ordered one way or the other. |
| XdmfOrdering.KeyOrder | tools/utils/ats_xdmf.py:388 | The record comparison is an order the sort can use. |
| XdmfOrdering.SortIds | tools/utils/ats_xdmf.py:388 | `coords_a.sort` leaves a permutation of the records (as a multiset) in non-decreasing key order. |
| XdmfOrdering.InsertLast | tools/utils/ats_xdmf.py:388 | One insertion step extends the sorted prefix by one and keeps the multiset. |
| XdmfOrdering.SortedRecordIds | tools/utils/ats_xdmf.py:388-390 | Sorting the records yields every record id exactly once (a permutation of `0..n-1`), in non-decreasing key order. |
| XdmfOrdering.OrderRecords | tools/utils/ats_xdmf.py:379-395 | Once every completed key is a record field, the records are sorted and gathered into an ordering that meets the specification for the effective sort key. |
| XdmfOrdering.PermutationInRange | tools/utils/ats_xdmf.py:350-352 | A permutation of `0..n-1` has length n, holds only values in range, and holds every one of them. |
| XdmfOrdering.PermutationDistinct | tools/utils/ats_xdmf.py:350-352 | A permutation holds no value twice. |
| XdmfOrdering.StructuredOrdering | tools/utils/ats_xdmf.py:334-395 | It fails for dimensions other than 2 and 3, and for key names the records lack. Otherwise the map is a permutation of `0..n-1` in strictly increasing key order, and `ordered[i] == coordinates[map[i]]`. |
| XdmfOrdering.SortedIdsOrdering | tools/utils/ats_xdmf.py:388-395 | The sorted ids read back as `map` and the gathered coordinates satisfy the ordering specification. |
| XdmfOrdering.StructuredOrderingUnique | tools/utils/ats_xdmf.py:388-390 | The ordering is unique: any two results meeting the specification are equal, so `map` does not depend on the sort algorithm. |
| XdmfOrdering.SameUpTo | tools/utils/ats_xdmf.py:388-390 | Two id permutations, both strictly increasing in key order, agree on every position up to p. |
| XdmfOrdering.Gather | tools/utils/ats_xdmf.py:421 | `data[:, map]` succeeds exactly when every index is in bounds. Column i of every row is then column `map[i]` of that row. |
| XdmfOrdering.Reorder | tools/utils/ats_xdmf.py:414-426 | Output column i is input column `map[i]`. 1-D input gives 1-D output of length `len(map)`, and an out-of-range index raises. |
| XdmfOrdering.ReorderMapArg | tools/utils/ats_xdmf.py:418-421 | A list or tuple map goes through `np.array`; an empty one becomes a float array, which numpy refuses as an index. Any other map reorders exactly as `Reorder`. |
| XdmfOrdering.EmptyMaps | tools/utils/ats_xdmf.py:418-421 | An empty integer array selects no columns, while an empty list map raises. |
| XdmfOrdering.Inverse | tools/utils/ats_xdmf.py:350-352 | The inverse of a permutation map sends each old position to where it went. |
| XdmfOrdering.ReorderRoundTrip | tools/utils/ats_xdmf.py:414-426 | Reordering by a permutation map and then by its inverse gives the data back, for both 1-D and 2-D data. |

## Left out

- The nonlinear Krylov accelerator (src/ats_solvers/NonlinarKrylovAccelerator.hh): only declarations are present, with no bodies to model, and its numerics are floating point.
- The surface energy balance physics, the PK orchestration (energy, transport, deformation), the closed-form float constitutive models, and the declaration-only headers and registrations. These are floating-point physics, MPI and State plumbing, or contain no logic.
- `Field::set_vector_data`: face-normal geometry on doubles.
- `VisFile.loadTimes`, `loadMesh`, `get`, `getArray`, `filterTimes`, `elemCentroids` and all HDF5 reads. These are file I/O, float tolerance and float means. Stored cycles and times are constructor inputs.
- The `EvaluateFieldPartialDerivative_` overrides: their bodies are empty.
- The base `SecondaryVariableFieldEvaluator` (`UpdateField_`, its own `HasFieldChanged`, `RequireField`). Its answer is an input, and a forced update is modelled by recomputing the result. The base `HasFieldChanged` itself recomputes the field (`UpdateField_`) whenever a dependency changed; that recompute is not part of this model, so the `HasFieldChanged` rows speak only of what the overrides write.
- `Keys::getDomain` and `Keys::getKey` are not part of this model. They are function values passed in.
- ColumnEvaluator.EnsureCompatibility: in the source, `set_io_vis` has already run when the `checkpoint` read throws. The model returns either the whole plan of flags or the error, so that partial effect is not captured.
- Keys.GetBoolOr: Teuchos also stores the default into the parameter list when the entry is missing. The model returns the default without changing the list.
- XdmfVis.VisFile.FilterCycles: `np.argwhere(...)[0]` is a length-1 array, not a scalar. With numeric cycles, numpy 1.23 and later would then give cycles and times of shape (n, 1), and older numpy raises "too many indices" for two or more cycles. The model keeps the evidently intended one-dimensional selection.
- XdmfVis.VisFile.FilterIndices: an int index makes numpy return 0-d scalars, while the model keeps a one-element list.
- XdmfVis.VariableName: the source declares `variable` without `self`, so calling it as a method would raise TypeError. The model is the evidently intended method on the file's domain.
- XdmfOrdering.StructuredOrdering: a key list naming one field twice makes numpy's sort raise ValueError ("duplicate field name"); the model does not raise it and sorts by the key as given. Coordinates are integers standing for the rounded centroids, not floats. For dimensions other than 2 and 3 the source fails with an unbound local variable, modelled as UnsupportedDimension.
- XdmfOrdering.Reorder: data of three or more dimensions is not modelled. `data[:, map]` gathers along axis 1, which is the last axis only for 1-D (expanded) and 2-D data.
- XdmfOrdering.SortIds: numpy's sort algorithm is not reproduced. Any algorithm meets the specification, because StructuredOrderingUnique shows the sorted order is unique.
- XdmfMesh.SplitConnectivity: the `MixedElements` column is read from HDF5, and node coordinates (`NodeMap`, `Nodes`) are not built.
- SubgridSelect.EvaluateField: the C `assert` on the domain is modelled as in a debug build, as a failure that writes nothing. The same goes for `AMANZI_ASSERT` in `EnsureCompatibility`.
- FieldStore.Field.SetAll: Epetra's own shape checks on buffer assignment are preconditions (equal shapes), not error paths. The same goes for SetFirstVector, SetEachVector and Assign.
- FieldStore.Field.constructor: `initialized_` is not set by the constructor shown, so its value is a parameter. The same goes for `updated_once_` in both column evaluators.
- Floating-point rounding: field values, elevations and time factors are exact reals.

## Findings

| source | as written | input that shows it | evidently intended | confidence | as-written member | corrected member |
|---|---|---|---|---|---|---|
| src/pks/flow/constitutive_relations/thaw_depth/column_subsidence_evaluator.cc:29-31 | `"surface_column_" << col_id` is written into `domain_ss`, and the key is built from the empty `domain_surf`, giving `getKey("", "initial_elevation")` | domains `column_1` and `column_2` both get `getKey("", "initial_elevation")` | `getKey("surface_column_<id>", "initial_elevation")`, keyed on the same column as `bp_key_` | not executed | ColumnSubsidence.ConfigureSharesInitElevKey | ColumnSubsidence.InitElevKeyNamesSameColumn |
| tools/utils/ats_xdmf.py:71-109 | `loadTimes` keeps the cycles as the h5 key strings (sorted with `key=int`), and `filterCycles` compares them with `==` against int cycles | stored cycles `"0"`, `"10"` and `filterCycles(10)`: no match, `[0]` of an empty `argwhere` raises IndexError | cycles compared as numbers, so that `filterCycles(10)` selects index 1 | not executed | XdmfVis.CycleIndicesAsWrittenAlwaysFails | XdmfVis.VisFile.FilterCycles |
