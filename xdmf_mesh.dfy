/**
 * The mesh-connectivity handling of the visualisation reader: the XDMF
 * element-type codes and the split of a flat mixed-element connectivity
 * array into one row per element, for meshes of a single element type.
 */
module XdmfMesh {
  import opened Results

  datatype ElemKind = Quad | Prism | Hex | Triangle

  datatype MeshError =
    | EmptyConnectivity            // `elem_conn[0]` on an empty array
    | UnknownElemType(code: int)   // the lookup in `elem_type` fails
    | NotSingleType                // the ValueError for mixed element types

  /** `elem_type`: the XDMF codes the reader knows. */
  function ElemType(code: int): (r: Option<ElemKind>)
    ensures r.Some? <==> code in {4, 5, 8, 9}
    ensures r == Some(Triangle) <==> code == 4
    ensures r == Some(Quad) <==> code == 5
    ensures r == Some(Prism) <==> code == 8
    ensures r == Some(Hex) <==> code == 9
  {
    if code == 5 then Some(Quad)
    else if code == 8 then Some(Prism)
    else if code == 9 then Some(Hex)
    else if code == 4 then Some(Triangle)
    else None
  }

  /** Nodes per element: a prism has 6, a hex 8, a quad 4 and a triangle 3. */
  function NodesPerElem(kind: ElemKind): (n: nat)
    ensures 3 <= n <= 8
    ensures n == 6 <==> kind == Prism
    ensures n == 8 <==> kind == Hex
    ensures n == 4 <==> kind == Quad
    ensures n == 3 <==> kind == Triangle
  {
    match kind
    case Prism => 6
    case Hex => 8
    case Quad => 4
    case Triangle => 3
  }

  /** Rows of the split connectivity: the element-type code, then the node ids. */
  datatype Connectivity = Connectivity(kind: ElemKind, rows: seq<seq<int>>)

  function Concat(rows: seq<seq<int>>): seq<int>
  {
    if |rows| == 0 then [] else rows[0] + Concat(rows[1..])
  }

  /** `i * w` as repeated addition, so that row offsets are reasoned about linearly. */
  function Mul(i: nat, w: nat): nat
  {
    if i == 0 then 0 else Mul(i - 1, w) + w
  }

  lemma {:induction false} MulIsProduct(i: nat, w: nat)
    ensures Mul(i, w) == i * w
  {
    if i > 0 {
      MulIsProduct(i - 1, w);
      assert i * w == (i - 1) * w + w;
    }
  }

  /** The number of whole rows of width `w` in `n` entries, when `w` divides `n`. */
  function Quot(n: nat, w: nat): (q: nat)
    requires w > 0 && n % w == 0
    ensures Mul(q, w) == n && q == n / w
  {
    MulIsProduct(n / w, w);
    n / w
  }

  /** `k` rows of `w` entries each, cut from the front of `conn` in order. */
  function Rows(conn: seq<int>, w: nat, k: nat): (rows: seq<seq<int>>)
    requires |conn| == Mul(k, w)
    ensures |rows| == k
    decreases k
  {
    if k == 0 then [] else [conn[..w]] + Rows(conn[w..], w, k - 1)
  }

  /** Reshaping into rows and flattening again gives the flat array back. */
  lemma {:induction false} RowsConcat(conn: seq<int>, w: nat, k: nat)
    requires |conn| == Mul(k, w)
    ensures Concat(Rows(conn, w, k)) == conn
    decreases k
  {
    if k > 0 {
      var rows := Rows(conn, w, k);
      RowsConcat(conn[w..], w, k - 1);
      assert rows[1..] == Rows(conn[w..], w, k - 1);
      assert conn == conn[..w] + conn[w..];
    }
  }

  /** Row `i` is the slice starting at offset `Mul(i, w)`. */
  lemma {:induction false} RowAt(conn: seq<int>, w: nat, k: nat, i: nat)
    requires |conn| == Mul(k, w) && i < k
    ensures Mul(i, w) + w <= |conn| && Rows(conn, w, k)[i] == conn[Mul(i, w)..Mul(i, w) + w]
    decreases k
  {
    if i > 0 {
      var rest := conn[w..];
      RowAt(rest, w, k - 1, i - 1);
      assert Rows(conn, w, k)[i] == Rows(rest, w, k - 1)[i - 1];
    }
  }

  /** Row `i` is the slice `[i*w, (i+1)*w)` of the flat array. */
  lemma RowsAreSlices(conn: seq<int>, w: nat, k: nat, i: nat)
    requires |conn| == Mul(k, w) && i < k
    ensures i * w + w <= |conn| && Rows(conn, w, k)[i] == conn[i * w..i * w + w]
  {
    RowAt(conn, w, k, i);
    MulIsProduct(i, w);
  }

  /** Every row is non-empty and starts with `code`. */
  predicate RowsStartWith(rows: seq<seq<int>>, code: int)
  {
    forall i :: 0 <= i < |rows| ==> |rows[i]| > 0 && rows[i][0] == code
  }

  /**
   * The split in `xyz`: the first entry names the element type, the length
   * must be a whole number of rows of `nodes + 1` entries, and every row
   * must start with the same type code.
   */
  function SplitConnectivity(conn: seq<int>): (r: Result<Connectivity, MeshError>)
    ensures |conn| == 0 ==> r == Err(EmptyConnectivity)
    ensures |conn| > 0 && ElemType(conn[0]).None? ==> r == Err(UnknownElemType(conn[0]))
    ensures r.Ok? <==> && |conn| > 0 && ElemType(conn[0]).Some?
                       && var w := NodesPerElem(ElemType(conn[0]).value) + 1;
                          && |conn| % w == 0
                          && RowsStartWith(Rows(conn, w, Quot(|conn|, w)), conn[0])
    ensures r.Ok? ==> && Some(r.value.kind) == ElemType(conn[0])
                      && var w := NodesPerElem(r.value.kind) + 1;
                         && |conn| % w == 0
                         && r.value.rows == Rows(conn, w, Quot(|conn|, w))
  {
    if |conn| == 0 then Err(EmptyConnectivity)
    else
      var kind := ElemType(conn[0]);
      if kind.None? then Err(UnknownElemType(conn[0]))
      else
        var w := NodesPerElem(kind.value) + 1;
        if |conn| % w != 0 then Err(NotSingleType)
        else
          var rows := Rows(conn, w, Quot(|conn|, w));
          if RowsStartWith(rows, conn[0]) then Ok(Connectivity(kind.value, rows))
          else Err(NotSingleType)
  }

  /** A row that is the slice at `i * w` and starts with `code` puts `code` at `i * w`. */
  lemma RowStartsWith(conn: seq<int>, w: nat, k: nat, i: nat, code: int)
    requires |conn| == Mul(k, w) && i < k && RowsStartWith(Rows(conn, w, k), code)
    ensures i * w + w <= |conn| && Rows(conn, w, k)[i] == conn[i * w..i * w + w] && conn[i * w] == code
  {
    RowAt(conn, w, k, i);
    var m := Mul(i, w);
    assert Rows(conn, w, k)[i][0] == conn[m];
    MulIsProduct(i, w);
  }

  /**
   * On success there are `len / (nodes + 1)` rows, which flatten back to the
   * array; row i is the slice `[i*(nodes+1), (i+1)*(nodes+1))`, and each
   * starts with the type code.
   */
  lemma SplitRows(conn: seq<int>)
    requires SplitConnectivity(conn).Ok?
    ensures var c := SplitConnectivity(conn).value;
            var w := NodesPerElem(c.kind) + 1;
            && |c.rows| == |conn| / w
            && Concat(c.rows) == conn
            && forall i :: 0 <= i < |c.rows| ==>
                 i * w + w <= |conn| && c.rows[i] == conn[i * w..i * w + w] && conn[i * w] == conn[0]
  {
    var c := SplitConnectivity(conn).value;
    var w := NodesPerElem(c.kind) + 1;
    var k := Quot(|conn|, w);
    assert c.rows == Rows(conn, w, k) && RowsStartWith(c.rows, conn[0]);
    RowsConcat(conn, w, k);
    forall i | 0 <= i < k
      ensures i * w + w <= |conn| && c.rows[i] == conn[i * w..i * w + w] && conn[i * w] == conn[0]
    {
      RowStartsWith(conn, w, k, i, conn[0]);
    }
  }
}
