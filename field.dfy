/**
 * A Field: a buffer of `numDofs` vectors over the faces or cells of a mesh,
 * with metadata for visualisation and checkpointing.  Anyone may read it,
 * but only the process kernel (PK) that owns it may write it.
 */
module FieldStore {
  import opened Results

  datatype FieldLocation = FaceLocation | CellLocation | MeshLocation

  /**
   * The part of the mesh a Field uses: the number of owned faces and cells,
   * and the owned cells of every cell set (mesh block), keyed by set id.
   */
  datatype Mesh = Mesh(numFaces: nat, numCells: nat, cellSets: map<int, seq<nat>>) {
    predicate Valid() {
      forall id, k :: id in cellSets && 0 <= k < |cellSets[id]| ==> cellSets[id][k] < numCells
    }

    /** `valid_set_id(id, CELL)`. */
    predicate ValidSetId(id: int) { id in cellSets }
  }

  /** Number of entries per vector: the size of the face map or of the cell map. */
  function EntityCount(mesh: Mesh, location: FieldLocation): nat
  {
    match location
    case FaceLocation => mesh.numFaces
    case CellLocation => mesh.numCells
    case MeshLocation => 0
  }

  datatype FieldError =
    | ConstantFieldsNotImplemented
    | NoVectors(numDofs: int)   // Epetra refuses a multivector of fewer than one vector
    | WriteDenied(pkName: string, fieldname: string, owner: string)
    | AccessDenied(pkName: string, fieldname: string, owner: string)
    | InvalidLocation(requested: FieldLocation, actual: FieldLocation)
    | InvalidBlockId(blockId: int)

  /** `assert_owner_or_die`: only the owner passes. */
  function OwnerCheck(pkName: string, fieldname: string, owner: string): (r: Outcome<FieldError>)
    ensures r.Pass? <==> pkName == owner
    ensures r.Fail? ==> r.error == WriteDenied(pkName, fieldname, owner)
  {
    if pkName != owner then Fail(WriteDenied(pkName, fieldname, owner)) else Pass
  }

  /** `assert_location_or_die`: the write must target the field's own location. */
  function LocationCheck(requested: FieldLocation, actual: FieldLocation): (r: Outcome<FieldError>)
    ensures r.Pass? <==> requested == actual
    ensures r.Fail? ==> r.error == InvalidLocation(requested, actual)
  {
    if requested != actual then Fail(InvalidLocation(requested, actual)) else Pass
  }

  /** `assert_valid_block_id_or_die`: the id must name a cell set of the mesh. */
  function BlockCheck(mesh: Mesh, blockId: int): (r: Outcome<FieldError>)
    ensures r.Pass? <==> mesh.ValidSetId(blockId)
    ensures r.Fail? ==> r.error == InvalidBlockId(blockId)
  {
    if !mesh.ValidSetId(blockId) then Fail(InvalidBlockId(blockId)) else Pass
  }

  /**
   * The guards of a constant-valued write, in the order the writers run them:
   * owner, then cell location, then (for a block write) the block id.  The
   * first that fails decides the exception.
   */
  function CellWriteGuard(pkName: string, fieldname: string, owner: string,
                          location: FieldLocation, mesh: Mesh, blockId: Option<int>): (r: Outcome<FieldError>)
    ensures r.Pass? <==> pkName == owner && location == CellLocation
                         && (blockId.Some? ==> mesh.ValidSetId(blockId.value))
    ensures pkName != owner ==> r == Fail(WriteDenied(pkName, fieldname, owner))
    ensures pkName == owner && location != CellLocation ==> r == Fail(InvalidLocation(CellLocation, location))
    ensures pkName == owner && location == CellLocation && blockId.Some? && !mesh.ValidSetId(blockId.value)
            ==> r == Fail(InvalidBlockId(blockId.value))
  {
    var owned := OwnerCheck(pkName, fieldname, owner);
    if owned.Fail? then owned
    else
      var located := LocationCheck(CellLocation, location);
      if located.Fail? then located
      else if blockId.None? then Pass
      else BlockCheck(mesh, blockId.value)
  }

  /** The subfield names a new field starts with. */
  function InitialSubfieldNames(fieldname: string, location: FieldLocation, numDofs: nat): (r: seq<string>)
    ensures r == [fieldname] <==> numDofs == 1 && location == CellLocation
    ensures r == [] <==> !(numDofs == 1 && location == CellLocation)
  {
    if numDofs == 1 && location == CellLocation then [fieldname] else []
  }

  /**
   * Copies `src` into `dst` entry by entry, as Epetra's buffer assignment does.
   * The two may be the same buffer.
   */
  method CopyValues(src: array2<real>, dst: array2<real>)
    requires src.Length0 == dst.Length0 && src.Length1 == dst.Length1
    modifies dst
    ensures forall i, c :: 0 <= i < dst.Length0 && 0 <= c < dst.Length1 ==> dst[i, c] == old(src[i, c])
  {
    var i := 0;
    while i < dst.Length0
      invariant 0 <= i <= dst.Length0
      invariant forall i', c :: 0 <= i' < i && 0 <= c < dst.Length1 ==> dst[i', c] == old(src[i', c])
      invariant forall i', c :: i <= i' < dst.Length0 && 0 <= c < dst.Length1 ==> src[i', c] == old(src[i', c])
      invariant forall i', c :: i <= i' < dst.Length0 && 0 <= c < dst.Length1 ==> dst[i', c] == old(dst[i', c])
    {
      var c := 0;
      while c < dst.Length1
        invariant 0 <= c <= dst.Length1
        invariant forall i', c' :: 0 <= i' < i && 0 <= c' < dst.Length1 ==> dst[i', c'] == old(src[i', c'])
        invariant forall c' :: 0 <= c' < c ==> dst[i, c'] == old(src[i, c'])
        invariant forall c' :: c <= c' < dst.Length1 ==> src[i, c'] == old(src[i, c'])
        invariant forall i', c' :: i < i' < dst.Length0 && 0 <= c' < dst.Length1 ==> src[i', c'] == old(src[i', c'])
        invariant forall i', c' :: i < i' < dst.Length0 && 0 <= c' < dst.Length1 ==> dst[i', c'] == old(dst[i', c'])
        invariant forall c' :: c <= c' < dst.Length1 ==> dst[i, c'] == old(dst[i, c'])
      {
        dst[i, c] := src[i, c];
        c := c + 1;
      }
      i := i + 1;
    }
  }

  class Field {
    var fieldname: string
    var location: FieldLocation
    var owner: string
    var mesh: Mesh
    var numDofs: nat
    var ioRestart: bool
    var ioVis: bool
    var initialized: bool
    var subfieldnames: seq<string>
    /** Vector i, entity c is `data[i, c]`. */
    var data: array2<real>

    /** The buffer has one row per degree of freedom and one column per owned entity. */
    ghost predicate Valid()
      reads this
    {
      && location != MeshLocation
      && mesh.Valid()
      && numDofs > 0
      && data.Length0 == numDofs
      && data.Length1 == EntityCount(mesh, location)
    }

    /**
     * The constructor for face and cell fields of at least one dof; `NewField`
     * raises for the mesh location and for fewer dofs.  `initialized` is not
     * set by the source's constructor, so its value is taken as given.
     */
    constructor (fieldname: string, location: FieldLocation, mesh: Mesh, owner: string,
                 numDofs: nat, initialized: bool)
      requires location != MeshLocation && mesh.Valid() && numDofs > 0
      ensures Valid() && fresh(data)
      ensures this.fieldname == fieldname && this.location == location && this.mesh == mesh
      ensures this.owner == owner && this.numDofs == numDofs && this.initialized == initialized
      ensures ioRestart && !ioVis
      ensures subfieldnames == InitialSubfieldNames(fieldname, location, numDofs)
      ensures forall i, c :: 0 <= i < data.Length0 && 0 <= c < data.Length1 ==> data[i, c] == 0.0
    {
      this.fieldname := fieldname;
      this.location := location;
      this.owner := owner;
      this.mesh := mesh;
      this.numDofs := numDofs;
      this.initialized := initialized;
      ioRestart := true;
      ioVis := false;
      data := new real[numDofs, EntityCount(mesh, location)]((_, _) => 0.0);
      subfieldnames := InitialSubfieldNames(fieldname, location, numDofs);
    }

    /** The copy constructor: equal values and metadata in a buffer of its own. */
    constructor Copy(other: Field)
      requires other.Valid()
      ensures Valid() && fresh(data)
      ensures fieldname == other.fieldname && location == other.location && mesh == other.mesh
      ensures owner == other.owner && numDofs == other.numDofs && initialized == other.initialized
      ensures ioRestart == other.ioRestart && ioVis == other.ioVis
      ensures subfieldnames == other.subfieldnames
      ensures data.Length0 == other.data.Length0 && data.Length1 == other.data.Length1
      ensures forall i, c :: 0 <= i < data.Length0 && 0 <= c < data.Length1 ==> data[i, c] == other.data[i, c]
    {
      var buffer := new real[other.data.Length0, other.data.Length1];
      CopyValues(other.data, buffer);
      data := buffer;
      fieldname := other.fieldname;
      owner := other.owner;
      subfieldnames := other.subfieldnames;
      location := other.location;
      numDofs := other.numDofs;
      ioRestart := other.ioRestart;
      ioVis := other.ioVis;
      initialized := other.initialized;
      mesh := other.mesh;
    }

    /**
     * `operator=`: assignment from another field copies its values into this
     * field's own buffer (which keeps its identity) and copies every piece of
     * metadata; assignment from itself changes nothing.  The buffers must
     * have the same shape, as Epetra's buffer assignment demands.
     */
    method Assign(that: Field)
      requires Valid() && that.Valid()
      requires data.Length0 == that.data.Length0 && data.Length1 == that.data.Length1
      modifies this, data
      ensures Valid() && data == old(data)
      ensures that == this ==> unchanged(this) && unchanged(data)
      ensures that != this ==>
        && fieldname == old(that.fieldname) && owner == old(that.owner)
        && subfieldnames == old(that.subfieldnames) && location == old(that.location)
        && numDofs == old(that.numDofs) && ioRestart == old(that.ioRestart)
        && ioVis == old(that.ioVis) && initialized == old(that.initialized)
        && mesh == old(that.mesh)
        && forall i, c :: 0 <= i < data.Length0 && 0 <= c < data.Length1 ==> data[i, c] == old(that.data[i, c])
    {
      if that != this {
        CopyValues(that.data, data);
        fieldname := that.fieldname;
        owner := that.owner;
        subfieldnames := that.subfieldnames;
        location := that.location;
        numDofs := that.numDofs;
        ioRestart := that.ioRestart;
        ioVis := that.ioVis;
        initialized := that.initialized;
        mesh := that.mesh;
      }
    }

    /** `get_data`: write access to the buffer, for the owner only. */
    method GetData(pkName: string) returns (r: Result<array2<real>, FieldError>)
      ensures r.Ok? <==> pkName == owner
      ensures r.Ok? ==> r.value == data
      ensures r.Err? ==> r.error == AccessDenied(pkName, fieldname, owner)
    {
      if pkName == owner {
        r := Ok(data);
      } else {
        r := Err(AccessDenied(pkName, fieldname, owner));
      }
    }

    /** `set_data(pk, MultiVector)`: the owner overwrites every vector with `src`. */
    method SetAll(pkName: string, src: array2<real>) returns (r: Outcome<FieldError>)
      requires Valid()
      requires src.Length0 == data.Length0 && src.Length1 == data.Length1
      modifies data
      ensures r == OwnerCheck(pkName, fieldname, owner)
      ensures r.Fail? ==> unchanged(data)
      ensures r.Pass? ==> forall i, c :: 0 <= i < data.Length0 && 0 <= c < data.Length1 ==> data[i, c] == old(src[i, c])
    {
      r := OwnerCheck(pkName, fieldname, owner);
      if r.Pass? {
        CopyValues(src, data);
      }
    }

    /** `set_data(pk, Vector)`: the owner overwrites vector 0; the other vectors keep their values. */
    method SetFirstVector(pkName: string, v: array<real>) returns (r: Outcome<FieldError>)
      requires Valid()
      requires v.Length == data.Length1
      modifies data
      ensures r == OwnerCheck(pkName, fieldname, owner)
      ensures r.Fail? ==> unchanged(data)
      ensures r.Pass? ==> forall c :: 0 <= c < data.Length1 ==> data[0, c] == old(v[c])
      ensures forall i, c :: 1 <= i < data.Length0 && 0 <= c < data.Length1 ==> data[i, c] == old(data[i, c])
    {
      r := OwnerCheck(pkName, fieldname, owner);
      if r.Pass? {
        var c := 0;
        while c < data.Length1
          invariant 0 <= c <= data.Length1
          invariant forall c' :: 0 <= c' < c ==> data[0, c'] == old(v[c'])
          invariant forall i, c' :: 0 <= i < data.Length0 && 0 <= c' < data.Length1 && (i != 0 || c' >= c)
                      ==> data[i, c'] == old(data[i, c'])
        {
          data[0, c] := v[c];
          c := c + 1;
        }
      }
    }

    /** `set_data(pk, const double* u)`: every entry of vector i becomes `u[i]`. */
    method SetEachVector(pkName: string, u: seq<real>) returns (r: Outcome<FieldError>)
      requires Valid()
      requires |u| >= data.Length0
      modifies data
      ensures r == CellWriteGuard(pkName, fieldname, owner, location, mesh, None)
      ensures r.Fail? ==> unchanged(data)
      ensures r.Pass? ==> forall i, c :: 0 <= i < data.Length0 && 0 <= c < data.Length1 ==> data[i, c] == u[i]
    {
      r := CellWriteGuard(pkName, fieldname, owner, location, mesh, None);
      if r.Pass? {
        FillVectors(u);
      }
    }

    /** `set_data(pk, double u)`: every entry of every vector becomes `u`. */
    method SetUniform(pkName: string, u: real) returns (r: Outcome<FieldError>)
      requires Valid()
      modifies data
      ensures r == CellWriteGuard(pkName, fieldname, owner, location, mesh, None)
      ensures r.Fail? ==> unchanged(data)
      ensures r.Pass? ==> forall i, c :: 0 <= i < data.Length0 && 0 <= c < data.Length1 ==> data[i, c] == u
    {
      r := CellWriteGuard(pkName, fieldname, owner, location, mesh, None);
      if r.Pass? {
        FillVectors(seq(data.Length0, _ => u));
      }
    }

    /** `set_data(pk, const double* u, block)`: the cells of the block get `u[i]` in vector i; all other cells keep their values. */
    method SetEachVectorOnBlock(pkName: string, u: seq<real>, blockId: int) returns (r: Outcome<FieldError>)
      requires Valid()
      requires |u| >= data.Length0
      modifies data
      ensures r == CellWriteGuard(pkName, fieldname, owner, location, mesh, Some(blockId))
      ensures r.Fail? ==> unchanged(data)
      ensures r.Pass? ==> forall i, c :: 0 <= i < data.Length0 && 0 <= c < data.Length1 ==>
                            data[i, c] == if c in mesh.cellSets[blockId] then u[i] else old(data[i, c])
    {
      r := CellWriteGuard(pkName, fieldname, owner, location, mesh, Some(blockId));
      if r.Pass? {
        FillVectorsOnCells(u, mesh.cellSets[blockId]);
      }
    }

    /** `set_data(pk, double u, block)`: the cells of the block get `u` in every vector; all other cells keep their values. */
    method SetUniformOnBlock(pkName: string, u: real, blockId: int) returns (r: Outcome<FieldError>)
      requires Valid()
      modifies data
      ensures r == CellWriteGuard(pkName, fieldname, owner, location, mesh, Some(blockId))
      ensures r.Fail? ==> unchanged(data)
      ensures r.Pass? ==> forall i, c :: 0 <= i < data.Length0 && 0 <= c < data.Length1 ==>
                            data[i, c] == if c in mesh.cellSets[blockId] then u else old(data[i, c])
    {
      r := CellWriteGuard(pkName, fieldname, owner, location, mesh, Some(blockId));
      if r.Pass? {
        FillVectorsOnCells(seq(data.Length0, _ => u), mesh.cellSets[blockId]);
      }
    }

    /** The loop of the constant writers: vector i is filled with `u[i]`. */
    method FillVectors(u: seq<real>)
      requires Valid() && |u| >= data.Length0
      modifies data
      ensures forall i, c :: 0 <= i < data.Length0 && 0 <= c < data.Length1 ==> data[i, c] == u[i]
    {
      var i := 0;
      while i < data.Length0
        invariant 0 <= i <= data.Length0
        invariant forall i', c :: 0 <= i' < i && 0 <= c < data.Length1 ==> data[i', c] == u[i']
      {
        var c := 0;
        while c < data.Length1
          invariant 0 <= c <= data.Length1
          invariant forall i', c' :: 0 <= i' < i && 0 <= c' < data.Length1 ==> data[i', c'] == u[i']
          invariant forall c' :: 0 <= c' < c ==> data[i, c'] == u[i]
        {
          data[i, c] := u[i];
          c := c + 1;
        }
        i := i + 1;
      }
    }

    /** The loop of the block writers: the listed cells of vector i get `u[i]`, nothing else changes. */
    method FillVectorsOnCells(u: seq<real>, cells: seq<nat>)
      requires Valid() && |u| >= data.Length0
      requires forall k :: 0 <= k < |cells| ==> cells[k] < data.Length1
      modifies data
      ensures forall i, c :: 0 <= i < data.Length0 && 0 <= c < data.Length1 ==>
                data[i, c] == if c in cells then u[i] else old(data[i, c])
    {
      var i := 0;
      while i < data.Length0
        invariant 0 <= i <= data.Length0
        invariant forall i', c :: 0 <= i' < i && 0 <= c < data.Length1 ==>
                    data[i', c] == if c in cells then u[i'] else old(data[i', c])
        invariant forall i', c :: i <= i' < data.Length0 && 0 <= c < data.Length1 ==> data[i', c] == old(data[i', c])
      {
        var k := 0;
        while k < |cells|
          invariant 0 <= k <= |cells|
          invariant forall i', c :: 0 <= i' < i && 0 <= c < data.Length1 ==>
                      data[i', c] == if c in cells then u[i'] else old(data[i', c])
          invariant forall c :: 0 <= c < data.Length1 ==> data[i, c] == if c in cells[..k] then u[i] else old(data[i, c])
          invariant forall i', c :: i < i' < data.Length0 && 0 <= c < data.Length1 ==> data[i', c] == old(data[i', c])
        {
          data[i, cells[k]] := u[i];
          assert cells[..k + 1] == cells[..k] + [cells[k]];
          k := k + 1;
        }
        assert cells[..k] == cells;
        i := i + 1;
      }
    }
  }

  /**
   * The constructor's dispatch on the location: constant (mesh) fields raise,
   * and so does the multivector for a face or cell field of fewer than one dof.
   */
  method NewField(fieldname: string, location: FieldLocation, mesh: Mesh, owner: string,
                  numDofs: int, initialized: bool) returns (r: Result<Field, FieldError>)
    requires mesh.Valid()
    ensures r.Err? <==> location == MeshLocation || numDofs < 1
    ensures location == MeshLocation ==> r == Err(ConstantFieldsNotImplemented)
    ensures location != MeshLocation && numDofs < 1 ==> r == Err(NoVectors(numDofs))
    ensures r.Ok? ==> && fresh(r.value) && fresh(r.value.data) && r.value.Valid()
                      && r.value.data.Length1 == (if location == FaceLocation then mesh.numFaces else mesh.numCells)
                      && r.value.ioRestart && !r.value.ioVis
                      && r.value.subfieldnames == InitialSubfieldNames(fieldname, location, numDofs)
    ensures r.Ok? ==> && r.value.fieldname == fieldname && r.value.location == location
                      && r.value.mesh == mesh && r.value.owner == owner
                      && r.value.numDofs == numDofs && r.value.data.Length0 == numDofs
                      && r.value.initialized == initialized
    ensures r.Ok? ==> forall i, c :: 0 <= i < r.value.data.Length0 && 0 <= c < r.value.data.Length1 ==>
                                      r.value.data[i, c] == 0.0
  {
    if location == MeshLocation {
      r := Err(ConstantFieldsNotImplemented);
    } else if numDofs < 1 {
      r := Err(NoVectors(numDofs));
    } else {
      var f := new Field(fieldname, location, mesh, owner, numDofs, initialized);
      r := Ok(f);
    }
  }
}
