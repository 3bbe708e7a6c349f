/** Padding, chunking and concatenating batches (verl/protocol.py, `DataProto`). Columns are named;
    tensors and arrays are split by different code but must stay aligned row by row. */
module BatchAlgebra {
  import opened Outcomes
  import opened Arithmetic

  type Column = seq<int>

  datatype DataProto = DataProto(size: nat, tensors: map<string, Column>, arrays: map<string, Column>) {
    ghost predicate Valid() {
      && (forall key <- tensors :: |tensors[key]| == size)
      && (forall key <- arrays :: |arrays[key]| == size)
    }
  }

  function Cut(columns: map<string, Column>, from: nat, to: nat): map<string, Column>
    requires from <= to && forall key <- columns :: to <= |columns[key]|
  {
    map key | key in columns :: columns[key][from..to]
  }

  /** `data[from:to]`. */
  function Slice(d: DataProto, from: nat, to: nat): (r: DataProto)
    requires d.Valid() && from <= to <= d.size
    ensures r.Valid() && SameColumns(d, r)
  {
    DataProto(to - from, Cut(d.tensors, from, to), Cut(d.arrays, from, to))
  }

  predicate SameColumns(a: DataProto, b: DataProto) {
    a.tensors.Keys == b.tensors.Keys && a.arrays.Keys == b.arrays.Keys
  }

  /** Column by column. */
  function Glue(a: map<string, Column>, b: map<string, Column>): map<string, Column>
    requires a.Keys == b.Keys
  {
    map key | key in a :: a[key] + b[key]
  }

  lemma GlueCuts(columns: map<string, Column>, from: nat, mid: nat, to: nat)
    requires from <= mid <= to && forall key <- columns :: to <= |columns[key]|
    ensures Glue(Cut(columns, from, mid), Cut(columns, mid, to)) == Cut(columns, from, to)
  {
    forall key | key in columns ensures columns[key][from..mid] + columns[key][mid..to] == columns[key][from..to] {
      GlueColumn(columns[key], from, mid, to);
    }
  }

  lemma GlueColumn(c: Column, from: nat, mid: nat, to: nat)
    requires from <= mid <= to <= |c|
    ensures c[from..mid] + c[mid..to] == c[from..to]
  {
  }

  lemma CutGlued(a: map<string, Column>, b: map<string, Column>, n: nat)
    requires a.Keys == b.Keys && forall key <- a :: n <= |a[key]|
    ensures (forall key <- a :: n <= |Glue(a, b)[key]|) && Cut(Glue(a, b), 0, n) == Cut(a, 0, n)
  {
    forall key | key in a ensures (a[key] + b[key])[0..n] == a[key][0..n] {}
  }

  lemma CutAll(columns: map<string, Column>, n: nat)
    requires forall key <- columns :: |columns[key]| == n
    ensures Cut(columns, 0, n) == columns
  {
    forall key | key in columns ensures columns[key][0..n] == columns[key] {}
  }

  /** `DataProto.concat` of two. */
  function Append(a: DataProto, b: DataProto): (r: DataProto)
    requires a.Valid() && b.Valid() && SameColumns(a, b)
    ensures r.Valid() && SameColumns(a, r)
  {
    DataProto(a.size + b.size, Glue(a.tensors, b.tensors), Glue(a.arrays, b.arrays))
  }

  ghost predicate Alike(list: seq<DataProto>, d: DataProto) {
    forall i :: 0 <= i < |list| ==> list[i].Valid() && SameColumns(d, list[i])
  }

  /** `DataProto.concat` of a batch and more like it. */
  function Concat(d: DataProto, list: seq<DataProto>): (r: DataProto)
    requires d.Valid() && Alike(list, d)
    ensures r.Valid() && SameColumns(d, r)
  {
    if list == [] then d else Append(Concat(d, list[..|list| - 1]), list[|list| - 1])
  }

  lemma SliceSlices(d: DataProto, from: nat, mid: nat, to: nat)
    requires d.Valid() && from <= mid <= to <= d.size
    ensures Append(Slice(d, from, mid), Slice(d, mid, to)) == Slice(d, from, to)
  {
    GlueCuts(d.tensors, from, mid, to);
    GlueCuts(d.arrays, from, mid, to);
    hide Glue, Cut;
  }

  lemma SliceAll(d: DataProto)
    requires d.Valid()
    ensures Slice(d, 0, d.size) == d
  {
    CutAll(d.tensors, d.size);
    CutAll(d.arrays, d.size);
  }

  // ---------------------------------------------------------------- padding

  /** The rows of p are those of d, over and over. */
  ghost predicate WrapsColumn(p: Column, c: Column) {
    c != [] && forall j :: 0 <= j < |p| ==> p[j] == c[j % |c|]
  }

  ghost predicate Wraps(p: DataProto, d: DataProto) {
    && p.Valid() && d.Valid() && SameColumns(d, p) && d.size > 0
    && (forall key <- d.tensors :: WrapsColumn(p.tensors[key], d.tensors[key]))
    && (forall key <- d.arrays :: WrapsColumn(p.arrays[key], d.arrays[key]))
  }

  lemma WrapsMore(p: DataProto, d: DataProto, n: nat)
    requires Wraps(p, d) && p.size % d.size == 0 && n <= d.size
    ensures Wraps(Append(p, Slice(d, 0, n)), d)
  {
    forall c: Column, q: Column | |c| == d.size && |q| == p.size && WrapsColumn(q, c) ensures WrapsColumn(q + c[0..n], c) {
      WrapsColumnMore(q, c, n);
    }
  }

  lemma WrapsColumnMore(q: Column, c: Column, n: nat)
    requires WrapsColumn(q, c) && |q| % |c| == 0 && n <= |c|
    ensures WrapsColumn(q + c[0..n], c)
  {
    forall j | |q| <= j < |q| + n ensures j % |c| == j - |q| {
      DivUnique(j, |c|, |q| / |c|, j - |q|);
    }
  }

  lemma WholeTurn(a: nat, n: nat)
    requires n > 0 && a % n == 0
    ensures (a + n) % n == 0
  {
    DivUnique(a + n, n, a / n + 1, 0);
  }

  lemma {:induction false} StartsWith(d: DataProto, list: seq<DataProto>)
    requires d.Valid() && Alike(list, d)
    ensures Concat(d, list).size >= d.size && Slice(Concat(d, list), 0, d.size) == d
    decreases |list|
  {
    hide Glue, Cut;
    if list == [] {
      SliceAll(d);
    } else {
      var n := |list| - 1;
      StartsWith(d, list[..n]);
      var before := Concat(d, list[..n]);
      CutGlued(before.tensors, list[n].tensors, d.size);
      CutGlued(before.arrays, list[n].arrays, d.size);
    }
  }

  /** Pads to a multiple of the divisor by repeating the rows from the start, as often as it takes. */
  method PadToDivisor(d: DataProto, divisor: nat) returns (padded: DataProto, padSize: nat)
    requires d.Valid() && divisor > 0
    ensures padded.Valid() && SameColumns(d, padded) && padded.size == d.size + padSize
    ensures padSize < divisor && padded.size % divisor == 0
    ensures Slice(padded, 0, d.size) == d
    ensures padSize > 0 ==> Wraps(padded, d)
  {
    hide Wraps, Slice;
    SliceAll(d);
    if d.size % divisor == 0 { return d, 0; }
    padSize := divisor - d.size % divisor;
    DivUnique(d.size + padSize, divisor, d.size / divisor + 1, 0);
    padded := PadBy(d, padSize);
  }

  /** The padding loop: whole copies of the batch, then a part of one. */
  method PadBy(d: DataProto, padSize: nat) returns (padded: DataProto)
    requires d.Valid() && d.size > 0
    ensures padded.Valid() && SameColumns(d, padded) && padded.size == d.size + padSize
    ensures Slice(padded, 0, d.size) == d && Wraps(padded, d)
  {
    var parts: seq<DataProto> := [];
    var remaining := padSize;
    FirstTurn(d);
    hide Wraps;
    while remaining > 0
      invariant 0 <= remaining <= padSize && Alike(parts, d)
      invariant Concat(d, parts).size == d.size + padSize - remaining && Wraps(Concat(d, parts), d)
      invariant remaining > 0 ==> Concat(d, parts).size % d.size == 0
    {
      hide Concat;
      var take := if remaining < d.size then remaining else d.size;
      WrapsMore(Concat(d, parts), d, take);
      WholeTurn(Concat(d, parts).size, d.size);
      ConcatSize(d, parts, Slice(d, 0, take));
      parts := parts + [Slice(d, 0, take)];
      remaining := remaining - take;
    }
    StartsWith(d, parts);
    padded := Concat(d, parts);
  }

  lemma FirstTurn(d: DataProto)
    requires d.Valid() && d.size > 0
    ensures Wraps(d, d) && d.size % d.size == 0
  {
    forall c: Column | |c| == d.size ensures WrapsColumn(c, c) {
      forall j | 0 <= j < |c| ensures j % |c| == j {
        DivUnique(j, |c|, 0, j);
      }
    }
    DivUnique(d.size, d.size, 1, 0);
  }

  /** `data[:-padSize]`, or the data itself. */
  function Unpad(d: DataProto, padSize: nat): DataProto
    requires d.Valid() && padSize <= d.size
  {
    if padSize != 0 then Slice(d, 0, d.size - padSize) else d
  }

  /** Padding to any divisor and unpadding by the returned size gives the batch back. */
  method PadThenUnpad(d: DataProto, divisor: nat) returns (r: DataProto)
    requires d.Valid() && divisor > 0
    ensures r == d
  {
    var padded, padSize := PadToDivisor(d, divisor);
    SliceAll(padded);
    r := Unpad(padded, padSize);
  }

  // ---------------------------------------------------------------- chunking

  /** Chunk i of n equal ones. */
  function Part(d: DataProto, n: nat, i: nat): DataProto
    requires d.Valid() && 0 < n && d.size % n == 0 && i < n
  {
    PartFits(d.size, n, i);
    Slice(d, i * (d.size / n), (i + 1) * (d.size / n))
  }

  lemma PartFits(size: nat, n: nat, i: nat)
    requires 0 < n && size % n == 0 && i < n
    ensures i * (size / n) <= (i + 1) * (size / n) <= size
  {
    assert size == n * (size / n);
    MulMono(i, i + 1, size / n);
    MulMono(i + 1, n, size / n);
  }

  /** The row numbers at which arrays are split: the sizes of the tensor chunks added up, last one off. */
  function Boundaries(sizes: seq<nat>): seq<nat> {
    if |sizes| <= 1 then []
    else
      var before := Boundaries(sizes[..|sizes| - 1]);
      before + [(if before == [] then 0 else before[|before| - 1]) + sizes[|sizes| - 2]]
  }

  lemma {:induction false} EqualBoundaries(sizes: seq<nat>, k: nat)
    requires forall i :: 0 <= i < |sizes| ==> sizes[i] == k
    ensures |Boundaries(sizes)| == if |sizes| == 0 then 0 else |sizes| - 1
    ensures forall i :: 0 <= i < |Boundaries(sizes)| ==> Boundaries(sizes)[i] == (i + 1) * k
  {
    if |sizes| > 1 {
      EqualBoundaries(sizes[..|sizes| - 1], k);
      var n := |Boundaries(sizes)| - 1;
      assert (n + 1) * k == n * k + k;
    }
  }

  lemma {:induction false} ConcatSize(d: DataProto, list: seq<DataProto>, more: DataProto)
    requires d.Valid() && Alike(list + [more], d)
    ensures Alike(list, d) && Concat(d, list + [more]) == Append(Concat(d, list), more)
  {
    var all := list + [more];
    assert all[..|list|] == list;
    forall i | 0 <= i < |list| ensures list[i] == all[i] {}
  }

  /** The rows between boundary i - 1 and boundary i. */
  function ArrayPart(c: Column, at: seq<nat>, i: nat): Column
    requires i <= |at| && forall k :: 0 <= k < |at| ==> at[k] <= |c|
    requires forall k :: 0 < k < |at| ==> at[k - 1] <= at[k]
  {
    c[if i == 0 then 0 else at[i - 1]..if i == |at| then |c| else at[i]]
  }

  ghost predicate Splits(at: seq<nat>, size: nat) {
    (forall k :: 0 <= k < |at| ==> at[k] <= size) && forall k :: 0 < k < |at| ==> at[k - 1] <= at[k]
  }

  /** Part i of every array. */
  function ArrayParts(arrays: map<string, Column>, size: nat, at: seq<nat>, i: nat): map<string, Column>
    requires i <= |at| && Splits(at, size) && forall key <- arrays :: |arrays[key]| == size
  {
    map key | key in arrays :: ArrayPart(arrays[key], at, i)
  }

  /** Arrays and tensors are split at the same rows. */
  lemma PartsAligned(d: DataProto, n: nat, at: seq<nat>, i: nat)
    requires d.Valid() && 0 < n && d.size % n == 0 && i < n
    requires |at| == n - 1 && forall k :: 0 <= k < |at| ==> at[k] == (k + 1) * (d.size / n)
    ensures Splits(at, d.size) && ArrayParts(d.arrays, d.size, at, i) == Part(d, n, i).arrays
    ensures Part(d, n, i).size == d.size / n
  {
    BoundariesFit(d.size, n, at);
    PartFits(d.size, n, i);
    LastBoundary(d.size, n, i);
    var k := d.size / n;
    assert (i + 1) * k == i * k + k;
    var from, to := if i == 0 then 0 else at[i - 1], if i == |at| then d.size else at[i];
    assert from == i * k && to == (i + 1) * k;
    hide Boundaries;
  }

  /** Splits the tensors first and the arrays at the rows where the tensors were split. */
  method Chunk(d: DataProto, chunks: nat) returns (r: Result<seq<DataProto>>)
    requires d.Valid() && 0 < chunks
    ensures r.Ok? <==> d.size % chunks == 0
    ensures r.Ok? ==> AreParts(r.value, d, chunks)
  {
    if d.size % chunks != 0 { return AssertionFailed; }
    hide Part, Cut, ArrayParts, Splits, Boundaries, Slice;
    var batches, sizes := TensorChunks(d, chunks);
    var at := Boundaries(sizes);
    EqualBoundaries(sizes, d.size / chunks);
    var parts: seq<DataProto> := [];
    for i := 0 to chunks
      invariant |parts| == i && forall j :: 0 <= j < i ==> parts[j] == Part(d, chunks, j)
    {
      PartsAligned(d, chunks, at, i);
      parts := parts + [DataProto(sizes[i], batches[i], ArrayParts(d.arrays, d.size, at, i))];
    }
    return Ok(parts);
  }

  /** The tensors chunked, with the chunk sizes. */
  method TensorChunks(d: DataProto, chunks: nat) returns (batches: seq<map<string, Column>>, sizes: seq<nat>)
    requires d.Valid() && 0 < chunks && d.size % chunks == 0
    ensures |batches| == |sizes| == chunks
    ensures forall j :: 0 <= j < chunks ==> sizes[j] == d.size / chunks && batches[j] == Part(d, chunks, j).tensors
  {
    hide Part, Cut, Slice;
    batches, sizes := [], [];
    for i := 0 to chunks
      invariant |batches| == |sizes| == i
      invariant forall j :: 0 <= j < i ==> sizes[j] == d.size / chunks && batches[j] == Part(d, chunks, j).tensors
    {
      TensorPart(d, chunks, i);
      batches := batches + [Cut(d.tensors, i * (d.size / chunks), (i + 1) * (d.size / chunks))];
      sizes := sizes + [d.size / chunks];
    }
  }

  lemma TensorPart(d: DataProto, n: nat, i: nat)
    requires d.Valid() && 0 < n && d.size % n == 0 && i < n
    ensures i * (d.size / n) <= (i + 1) * (d.size / n) <= d.size
    ensures Part(d, n, i).tensors == Cut(d.tensors, i * (d.size / n), (i + 1) * (d.size / n))
  {
    PartFits(d.size, n, i);
  }

  lemma BoundariesFit(size: nat, n: nat, at: seq<nat>)
    requires 0 < n && size % n == 0 && |at| == n - 1 && forall i :: 0 <= i < |at| ==> at[i] == (i + 1) * (size / n)
    ensures forall i :: 0 <= i < |at| ==> at[i] <= size
    ensures forall i :: 0 < i < |at| ==> at[i - 1] <= at[i]
  {
    forall i | 0 <= i < |at| ensures at[i] <= size && i * (size / n) <= at[i] {
      PartFits(size, n, i);
    }
  }

  lemma LastBoundary(size: nat, n: nat, i: nat)
    requires 0 < n && size % n == 0 && i < n
    ensures i == n - 1 ==> (i + 1) * (size / n) == size
  {
    assert size == n * (size / n);
  }

  /** These are the n chunks of d. */
  ghost predicate AreParts(parts: seq<DataProto>, d: DataProto, n: nat) {
    && d.Valid() && 0 < n && d.size % n == 0 && |parts| == n
    && forall j :: 0 <= j < n ==> parts[j] == Part(d, n, j)
  }

  lemma PartsAlike(parts: seq<DataProto>, d: DataProto, n: nat, i: nat)
    requires AreParts(parts, d, n) && 1 <= i <= n
    ensures parts[0].Valid() && Alike(parts[1..i], parts[0]) && SameColumns(d, parts[0])
  {
    forall j | 0 <= j < n ensures parts[j].Valid() && SameColumns(d, parts[j]) {
      PartFits(d.size, n, j);
    }
  }

  lemma {:induction false} ConcatParts(d: DataProto, parts: seq<DataProto>, n: nat, i: nat)
    requires AreParts(parts, d, n) && 1 <= i <= n
    ensures Alike(parts[1..i], parts[0]) && parts[0].Valid()
    ensures i * (d.size / n) <= d.size && Concat(parts[0], parts[1..i]) == Slice(d, 0, i * (d.size / n))
    decreases i
  {
    hide Slice, Part, Append;
    PartsAlike(parts, d, n, i);
    PartFits(d.size, n, i - 1);
    if i == 1 {
      FirstPart(d, n);
      assert parts[1..1] == [];
    } else {
      ConcatParts(d, parts, n, i - 1);
      NextPart(d, n, i - 1);
      assert parts[1..i] == parts[1..i - 1] + [parts[i - 1]];
      ConcatSize(parts[0], parts[1..i - 1], parts[i - 1]);
    }
  }

  lemma FirstPart(d: DataProto, n: nat)
    requires d.Valid() && 0 < n && d.size % n == 0
    ensures 1 * (d.size / n) <= d.size && Part(d, n, 0) == Slice(d, 0, 1 * (d.size / n))
  {
    PartFits(d.size, n, 0);
  }

  lemma NextPart(d: DataProto, n: nat, i: nat)
    requires d.Valid() && 0 < n && d.size % n == 0 && i < n
    ensures i * (d.size / n) <= (i + 1) * (d.size / n) <= d.size
    ensures Append(Slice(d, 0, i * (d.size / n)), Part(d, n, i)) == Slice(d, 0, (i + 1) * (d.size / n))
  {
    PartFits(d.size, n, i);
    SliceSlices(d, 0, i * (d.size / n), (i + 1) * (d.size / n));
  }

  /** The concatenated chunks are the batch. */
  lemma ConcatUndoesChunk(d: DataProto, parts: seq<DataProto>, n: nat)
    requires AreParts(parts, d, n)
    ensures parts[0].Valid() && Alike(parts[1..], parts[0]) && Concat(parts[0], parts[1..]) == d
  {
    ConcatParts(d, parts, n, n);
    LastBoundary(d.size, n, n - 1);
    SliceAll(d);
    assert parts[1..n] == parts[1..];
  }

  // ---------------------------------------------------------------- futures

  /** Outputs still to be collected, and, for one chunk of them, its number and the number of chunks. */
  datatype DataProtoFuture = DataProtoFuture(outputs: seq<DataProto>, dispatch: Option<(nat, nat)>)

  /** There is something to collect, and it can be concatenated. */
  predicate CanCollect(outputs: seq<DataProto>) {
    outputs != [] && forall i :: 0 <= i < |outputs| ==> SameColumns(outputs[0], outputs[i])
  }

  ghost predicate AllValid(outputs: seq<DataProto>) {
    forall i :: 0 <= i < |outputs| ==> outputs[i].Valid()
  }

  lemma CollectedAlike(outputs: seq<DataProto>)
    requires CanCollect(outputs) && AllValid(outputs)
    ensures outputs[0].Valid() && Alike(outputs[1..], outputs[0])
  {
  }

  function Collected(outputs: seq<DataProto>): (r: DataProto)
    requires CanCollect(outputs) && AllValid(outputs)
    ensures r.Valid()
  {
    CollectedAlike(outputs);
    Concat(outputs[0], outputs[1..])
  }

  /** The rows of all outputs. */
  function TotalSize(outputs: seq<DataProto>): nat {
    if outputs == [] then 0 else TotalSize(outputs[..|outputs| - 1]) + outputs[|outputs| - 1].size
  }

  function ColumnsOf(d: DataProto, arrays: bool): map<string, Column> { if arrays then d.arrays else d.tensors }

  /** Row t of output i is row `from + t` of r, where it has such a row, in this column. */
  ghost predicate SameRows(r: Column, from: int, c: Column) {
    forall t :: 0 <= t < |c| && 0 <= from + t < |r| ==> r[from + t] == c[t]
  }

  /** r consists of the rows `from` to `to` of the outputs, put one after another, in every column. */
  ghost predicate RowsOf(r: DataProto, outputs: seq<DataProto>, from: nat, to: nat) {
    && r.Valid() && from <= to && r.size == to - from
    && forall i, arrays: bool :: 0 <= i < |outputs| ==>
         && ColumnsOf(outputs[i], arrays).Keys == ColumnsOf(r, arrays).Keys
         && forall key <- ColumnsOf(r, arrays) ::
              SameRows(ColumnsOf(r, arrays)[key], TotalSize(outputs[..i]) - from, ColumnsOf(outputs[i], arrays)[key])
  }

  lemma RowsOfOne(r: DataProto, outputs: seq<DataProto>, from: nat, to: nat, i: nat, arrays: bool)
    requires RowsOf(r, outputs, from, to) && i < |outputs|
    ensures ColumnsOf(outputs[i], arrays).Keys == ColumnsOf(r, arrays).Keys
    ensures forall key <- ColumnsOf(r, arrays) ::
      && SameRows(ColumnsOf(r, arrays)[key], TotalSize(outputs[..i]) - from, ColumnsOf(outputs[i], arrays)[key])
      && |ColumnsOf(r, arrays)[key]| == r.size
  {
    hide TotalSize, SameRows;
    assert ColumnsOf(outputs[i], arrays).Keys == ColumnsOf(r, arrays).Keys;
  }

  lemma AppendColumn(r: Column, c: Column, next: Column, from: nat)
    ensures from + |c| <= |r| && SameRows(r, from, c) ==> SameRows(r + next, from, c)
    ensures SameRows(r + next, |r|, next)
  {
  }

  lemma AppendRows(r: DataProto, outputs: seq<DataProto>, next: DataProto)
    requires outputs != [] && RowsOf(r, outputs, 0, TotalSize(outputs)) && next.Valid() && SameColumns(r, next)
    requires AllValid(outputs)
    ensures RowsOf(Append(r, next), outputs + [next], 0, TotalSize(outputs + [next]))
  {
    var all := outputs + [next];
    var s := Append(r, next);
    assert all[..|outputs|] == outputs;
    forall i, arrays: bool | 0 <= i < |all|
      ensures ColumnsOf(all[i], arrays).Keys == ColumnsOf(s, arrays).Keys
      ensures forall key <- ColumnsOf(s, arrays) ::
                SameRows(ColumnsOf(s, arrays)[key], TotalSize(all[..i]) - 0, ColumnsOf(all[i], arrays)[key])
    {
      AppendRow(r, outputs, next, i, arrays);
    }
    hide SameRows, ColumnsOf, Glue, AllValid;
  }

  lemma AppendRow(r: DataProto, outputs: seq<DataProto>, next: DataProto, i: nat, arrays: bool)
    requires RowsOf(r, outputs, 0, TotalSize(outputs)) && next.Valid() && SameColumns(r, next)
    requires AllValid(outputs) && i <= |outputs|
    ensures var all, s := outputs + [next], Append(r, next);
            && ColumnsOf(all[i], arrays).Keys == ColumnsOf(s, arrays).Keys
            && forall key <- ColumnsOf(s, arrays) ::
                 SameRows(ColumnsOf(s, arrays)[key], TotalSize(all[..i]), ColumnsOf(all[i], arrays)[key])
  {
    if i < |outputs| {
      AppendEarlier(r, outputs, next, i, arrays);
      assert (outputs + [next])[..i] == outputs[..i] && (outputs + [next])[i] == outputs[i];
    } else {
      AppendLast(r, next, arrays);
      assert (outputs + [next])[..i] == outputs && (outputs + [next])[i] == next;
    }
    hide SameRows, Glue, TotalSize, RowsOf, Append, AllValid, ColumnsOf;
  }

  lemma AppendEarlier(r: DataProto, outputs: seq<DataProto>, next: DataProto, i: nat, arrays: bool)
    requires RowsOf(r, outputs, 0, TotalSize(outputs)) && next.Valid() && SameColumns(r, next)
    requires AllValid(outputs) && i < |outputs|
    ensures var s := Append(r, next);
            && ColumnsOf(outputs[i], arrays).Keys == ColumnsOf(s, arrays).Keys
            && forall key <- ColumnsOf(s, arrays) ::
                 SameRows(ColumnsOf(s, arrays)[key], TotalSize(outputs[..i]), ColumnsOf(outputs[i], arrays)[key])
  {
    SizeOf(r, outputs, 0, TotalSize(outputs));
    OutputValid(outputs, i);
    RowsOfOne(r, outputs, 0, TotalSize(outputs), i, arrays);
    GlueIsAppend(r, next, arrays);
    TotalGrows(outputs, i);
    hide SameRows, Glue, TotalSize, RowsOf, Append, AllValid, ColumnsOf;
    forall key | key in ColumnsOf(outputs[i], arrays) { ColumnSize(outputs[i], arrays, key); }
    EarlierColumns(ColumnsOf(r, arrays), ColumnsOf(outputs[i], arrays), ColumnsOf(next, arrays), TotalSize(outputs[..i]));
  }

  lemma AppendLast(r: DataProto, next: DataProto, arrays: bool)
    requires r.Valid() && next.Valid() && SameColumns(r, next)
    ensures var s := Append(r, next);
            && ColumnsOf(next, arrays).Keys == ColumnsOf(s, arrays).Keys
            && forall key <- ColumnsOf(s, arrays) :: SameRows(ColumnsOf(s, arrays)[key], r.size, ColumnsOf(next, arrays)[key])
  {
    GlueIsAppend(r, next, arrays);
    hide SameRows, Glue, Append;
    LastColumns(ColumnsOf(r, arrays), ColumnsOf(next, arrays), r.size);
  }

  lemma GlueIsAppend(a: DataProto, b: DataProto, arrays: bool)
    requires a.Valid() && b.Valid() && SameColumns(a, b)
    ensures ColumnsOf(a, arrays).Keys == ColumnsOf(b, arrays).Keys
    ensures ColumnsOf(Append(a, b), arrays) == Glue(ColumnsOf(a, arrays), ColumnsOf(b, arrays))
  {
    hide Glue;
  }

  lemma EarlierColumns(r: map<string, Column>, c: map<string, Column>, next: map<string, Column>, at: nat)
    requires r.Keys == c.Keys == next.Keys
    requires forall key <- r :: at + |c[key]| <= |r[key]| && SameRows(r[key], at, c[key])
    ensures Glue(r, next).Keys == c.Keys && forall key <- Glue(r, next) :: SameRows(Glue(r, next)[key], at, c[key])
  {
    hide SameRows;
    forall key | key in r ensures SameRows(r[key] + next[key], at, c[key]) {
      AppendColumn(r[key], c[key], next[key], at);
    }
  }

  lemma LastColumns(r: map<string, Column>, next: map<string, Column>, size: nat)
    requires r.Keys == next.Keys && forall key <- r :: |r[key]| == size
    ensures Glue(r, next).Keys == next.Keys && forall key <- Glue(r, next) :: SameRows(Glue(r, next)[key], size, next[key])
  {
    hide SameRows;
    forall key | key in r ensures SameRows(r[key] + next[key], size, next[key]) {
      AppendColumn(r[key], [], next[key], 0);
    }
  }

  lemma {:induction false} TotalGrows(outputs: seq<DataProto>, i: nat)
    requires i < |outputs|
    ensures TotalSize(outputs[..i]) + outputs[i].size <= TotalSize(outputs)
    decreases |outputs|
  {
    var n := |outputs| - 1;
    if i < n {
      TotalGrows(outputs[..n], i);
      assert outputs[..n][..i] == outputs[..i];
    }
  }

  /** Collecting puts all outputs one after another. */
  lemma {:induction false} CollectedRows(outputs: seq<DataProto>, n: nat)
    requires CanCollect(outputs) && AllValid(outputs) && 0 < n <= |outputs|
    ensures CanCollect(outputs[..n]) && AllValid(outputs[..n])
    ensures RowsOf(Collected(outputs[..n]), outputs[..n], 0, TotalSize(outputs[..n]))
    ensures SameColumns(outputs[0], Collected(outputs[..n]))
    decreases n
  {
    hide Append, RowsOf;
    var some := outputs[..n];
    CollectedAlike(some);
    if n == 1 {
      assert some == [outputs[0]];
      OneOutput(outputs[0]);
    } else {
      CollectedRows(outputs, n - 1);
      assert some == outputs[..n - 1] + [outputs[n - 1]];
      assert some[1..] == outputs[..n - 1][1..] + [outputs[n - 1]];
      ConcatSize(outputs[0], outputs[..n - 1][1..], outputs[n - 1]);
      AppendRows(Collected(outputs[..n - 1]), outputs[..n - 1], outputs[n - 1]);
    }
  }

  lemma OneOutput(d: DataProto)
    requires d.Valid()
    ensures RowsOf(d, [d], 0, TotalSize([d]))
  {
    assert [d][..0] == [];
  }

  lemma CollectedIs(outputs: seq<DataProto>)
    requires CanCollect(outputs) && AllValid(outputs)
    ensures RowsOf(Collected(outputs), outputs, 0, TotalSize(outputs)) && Collected(outputs).size == TotalSize(outputs)
  {
    CollectedRows(outputs, |outputs|);
    assert outputs[..|outputs|] == outputs;
  }

  /** The rows of a chunk of what was collected. */
  lemma PartRows(whole: DataProto, outputs: seq<DataProto>, n: nat, i: nat)
    requires 0 < n && i < n && whole.size % n == 0 && RowsOf(whole, outputs, 0, whole.size)
    ensures RowsOf(Part(whole, n, i), outputs, i * (whole.size / n), (i + 1) * (whole.size / n))
  {
    PartFits(whole.size, n, i);
    SliceRows(whole, outputs, i * (whole.size / n), (i + 1) * (whole.size / n));
  }

  lemma SliceRows(whole: DataProto, outputs: seq<DataProto>, from: nat, to: nat)
    requires RowsOf(whole, outputs, 0, whole.size) && from <= to <= whole.size
    ensures RowsOf(Slice(whole, from, to), outputs, from, to)
  {
    var r := Slice(whole, from, to);
    forall i, arrays: bool | 0 <= i < |outputs|
      ensures ColumnsOf(outputs[i], arrays).Keys == ColumnsOf(r, arrays).Keys
      ensures forall key <- ColumnsOf(r, arrays) ::
                SameRows(ColumnsOf(r, arrays)[key], TotalSize(outputs[..i]) - from, ColumnsOf(outputs[i], arrays)[key])
    {
      SliceOutput(whole, outputs, from, to, i, arrays);
    }
    hide SameRows, TotalSize, ColumnsOf, Cut;
  }

  lemma SliceOutput(whole: DataProto, outputs: seq<DataProto>, from: nat, to: nat, i: nat, arrays: bool)
    requires RowsOf(whole, outputs, 0, whole.size) && from <= to <= whole.size && i < |outputs|
    ensures ColumnsOf(outputs[i], arrays).Keys == ColumnsOf(Slice(whole, from, to), arrays).Keys
    ensures forall key <- ColumnsOf(Slice(whole, from, to), arrays) ::
      SameRows(ColumnsOf(Slice(whole, from, to), arrays)[key], TotalSize(outputs[..i]) - from, ColumnsOf(outputs[i], arrays)[key])
  {
    RowsOfOne(whole, outputs, 0, whole.size, i, arrays);
    hide RowsOf, TotalSize, SameRows;
    var r := Slice(whole, from, to);
    forall key | key in ColumnsOf(r, arrays)
      ensures SameRows(ColumnsOf(r, arrays)[key], TotalSize(outputs[..i]) - from, ColumnsOf(outputs[i], arrays)[key])
    {
      SliceColumn(ColumnsOf(whole, arrays)[key], ColumnsOf(outputs[i], arrays)[key], TotalSize(outputs[..i]), from, to);
    }
  }

  lemma SliceColumn(whole: Column, c: Column, at: nat, from: nat, to: nat)
    requires SameRows(whole, at, c) && from <= to <= |whole|
    ensures SameRows(whole[from..to], at - from, c)
  {
    forall t | 0 <= t < |c| && 0 <= at - from + t < to - from ensures whole[from..to][at - from + t] == c[t] {
      assert whole[at + t] == c[t];
    }
  }

  /** `get` raises nothing. */
  ghost predicate Gettable(f: DataProtoFuture) {
    && CanCollect(f.outputs)
    && (f.dispatch.Some? ==>
          var (i, n) := f.dispatch.value; n > 0 && i < n && TotalSize(f.outputs) % n == 0)
  }

  /** What `get` should give: all rows of the outputs one after another, or the chunk of these rows that
      the future stands for. */
  ghost predicate Meant(r: DataProto, f: DataProtoFuture)
    requires Gettable(f)
  {
    if f.dispatch.None? then RowsOf(r, f.outputs, 0, TotalSize(f.outputs))
    else
      var (i, n) := f.dispatch.value;
      RowsOf(r, f.outputs, i * (TotalSize(f.outputs) / n), (i + 1) * (TotalSize(f.outputs) / n))
  }

  /** Collects and concatenates the outputs, then takes the chunk. */
  method Get(f: DataProtoFuture) returns (r: Result<DataProto>)
    requires AllValid(f.outputs)
    ensures r.Ok? <==> Gettable(f)
    ensures r.Ok? ==> Meant(r.value, f)
  {
    hide Part, Concat, Collected, RowsOf, TotalSize, CanCollect, AllValid;
    if !CanCollect(f.outputs) { return AssertionFailed; }
    var output := Collected(f.outputs);
    CollectedIs(f.outputs);
    if f.dispatch.None? { return Ok(output); }
    var (i, n) := f.dispatch.value;
    if n == 0 { return AssertionFailed; }
    var parts := Chunk(output, n);
    if parts.AssertionFailed? || i >= |parts.value| { return AssertionFailed; }
    PartRows(output, f.outputs, n, i);
    return Ok(parts.value[i]);
  }

  /** The rows determine the batch. */
  lemma RowsDetermine(a: DataProto, b: DataProto, outputs: seq<DataProto>, from: nat, to: nat)
    requires outputs != [] && AllValid(outputs) && to <= TotalSize(outputs)
    requires RowsOf(a, outputs, from, to) && RowsOf(b, outputs, from, to)
    ensures a == b
  {
    hide RowsOf;
    ColumnsDetermined(a, b, outputs, from, to, true);
    ColumnsDetermined(a, b, outputs, from, to, false);
    SizeOf(a, outputs, from, to);
    SizeOf(b, outputs, from, to);
  }

  lemma SizeOf(r: DataProto, outputs: seq<DataProto>, from: nat, to: nat)
    requires RowsOf(r, outputs, from, to)
    ensures from <= to && r.size == to - from && r.Valid()
  {
  }

  lemma ColumnsDetermined(a: DataProto, b: DataProto, outputs: seq<DataProto>, from: nat, to: nat, arrays: bool)
    requires outputs != [] && AllValid(outputs) && to <= TotalSize(outputs)
    requires RowsOf(a, outputs, from, to) && RowsOf(b, outputs, from, to)
    ensures ColumnsOf(a, arrays) == ColumnsOf(b, arrays)
  {
    hide RowsOf, AllValid, TotalSize, SameRows;
    RowsOfOne(a, outputs, from, to, 0, arrays);
    RowsOfOne(b, outputs, from, to, 0, arrays);
    forall key | key in ColumnsOf(a, arrays) ensures ColumnsOf(a, arrays)[key] == ColumnsOf(b, arrays)[key] {
      ColumnDetermined(a, b, outputs, from, to, arrays, key);
    }
  }

  lemma ColumnDetermined(a: DataProto, b: DataProto, outputs: seq<DataProto>, from: nat, to: nat, arrays: bool, key: string)
    requires AllValid(outputs) && to <= TotalSize(outputs)
    requires RowsOf(a, outputs, from, to) && RowsOf(b, outputs, from, to)
    requires key in ColumnsOf(a, arrays) && key in ColumnsOf(b, arrays)
    ensures ColumnsOf(a, arrays)[key] == ColumnsOf(b, arrays)[key]
  {
    hide RowsOf, TotalSize, SameRows, AllValid, ColumnsOf;
    SizeOf(a, outputs, from, to);
    SizeOf(b, outputs, from, to);
    var x, y := ColumnsOf(a, arrays)[key], ColumnsOf(b, arrays)[key];
    ColumnSize(a, arrays, key);
    ColumnSize(b, arrays, key);
    forall j | 0 <= j < to - from ensures x[j] == y[j] {
      var i, t := RowIn(outputs, from + j);
      RowsOfOne(a, outputs, from, to, i, arrays);
      RowsOfOne(b, outputs, from, to, i, arrays);
      OutputValid(outputs, i);
      ColumnSize(outputs[i], arrays, key);
      RowAt(x, TotalSize(outputs[..i]) - from, ColumnsOf(outputs[i], arrays)[key], t);
      RowAt(y, TotalSize(outputs[..i]) - from, ColumnsOf(outputs[i], arrays)[key], t);
    }
  }

  lemma ColumnSize(d: DataProto, arrays: bool, key: string)
    requires d.Valid() && key in ColumnsOf(d, arrays)
    ensures |ColumnsOf(d, arrays)[key]| == d.size
  {
  }

  lemma OutputValid(outputs: seq<DataProto>, i: nat)
    requires AllValid(outputs) && i < |outputs|
    ensures outputs[i].Valid()
  {
  }

  lemma RowAt(r: Column, from: int, c: Column, t: nat)
    requires SameRows(r, from, c) && t < |c| && 0 <= from + t < |r|
    ensures r[from + t] == c[t]
  {
  }

  /** The output that a row is in. */
  lemma {:induction false} RowIn(outputs: seq<DataProto>, row: nat) returns (i: nat, t: nat)
    requires row < TotalSize(outputs)
    ensures i < |outputs| && t < outputs[i].size && TotalSize(outputs[..i]) + t == row
    decreases |outputs|
  {
    var n := |outputs| - 1;
    if row < TotalSize(outputs[..n]) {
      i, t := RowIn(outputs[..n], row);
      assert outputs[..n][..i] == outputs[..i];
    } else {
      i, t := n, row - TotalSize(outputs[..n]);
    }
  }

  /** One future per chunk; a chunk the future stands for itself is forgotten. */
  method ChunkFuture(f: DataProtoFuture, chunks: nat) returns (r: seq<DataProtoFuture>)
    ensures |r| == chunks && forall i :: 0 <= i < chunks ==> r[i] == DataProtoFuture(f.outputs, Some((i, chunks)))
  {
    r := [];
    for i := 0 to chunks
      invariant |r| == i && forall j :: 0 <= j < i ==> r[j] == DataProtoFuture(f.outputs, Some((j, chunks)))
    {
      r := r + [DataProtoFuture(f.outputs, Some((i, chunks)))];
    }
  }

  /** Every worker gets its chunk and the chunks are put together again: this fails exactly when nothing
      can be collected or the collected size does not divide; otherwise it gives all outputs one after
      another, which is what the chunked future itself stands for unless that is a proper chunk. */
  method ChunkAndGather(f: DataProtoFuture, chunks: nat) returns (r: Result<DataProto>)
    requires AllValid(f.outputs)
    ensures r.Ok? <==> CanCollect(f.outputs) && chunks > 0 && TotalSize(f.outputs) % chunks == 0
    ensures r.Ok? ==> RowsOf(r.value, f.outputs, 0, TotalSize(f.outputs))
    ensures r.Ok? && Gettable(f) ==>
      (Meant(r.value, f) <==> f.dispatch.None? || f.dispatch.value.1 == 1 || TotalSize(f.outputs) == 0)
  {
    hide Part, Concat, Collected, CanCollect, AllValid, RowsOf, TotalSize;
    var futures := ChunkFuture(f, chunks);
    var gets: seq<DataProto> := [];
    if CanCollect(f.outputs) { CollectedIs(f.outputs); }
    for i := 0 to chunks
      invariant |gets| == i && (i > 0 ==> CanCollect(f.outputs) && Collected(f.outputs).size % chunks == 0)
      invariant forall j :: 0 <= j < i ==> gets[j] == Part(Collected(f.outputs), chunks, j)
    {
      var one := Get(futures[i]);
      if one.AssertionFailed? { return AssertionFailed; }
      MeantIsPart(one.value, f.outputs, i, chunks);
      gets := gets + [one.value];
    }
    if gets == [] { return AssertionFailed; }
    ConcatUndoesChunk(Collected(f.outputs), gets, chunks);
    r := Ok(Concat(gets[0], gets[1..]));
    if Gettable(f) && f.dispatch.Some? {
      WholeIsMeantIff(Collected(f.outputs), f);
    }
  }

  lemma MeantIsPart(r: DataProto, outputs: seq<DataProto>, i: nat, n: nat)
    requires AllValid(outputs) && CanCollect(outputs) && 0 < n && i < n && TotalSize(outputs) % n == 0
    requires Meant(r, DataProtoFuture(outputs, Some((i, n))))
    ensures Collected(outputs).size == TotalSize(outputs) && r == Part(Collected(outputs), n, i)
  {
    hide Part, Collected, RowsOf, TotalSize, AllValid;
    CollectedIs(outputs);
    PartRows(Collected(outputs), outputs, n, i);
    PartFits(TotalSize(outputs), n, i);
    RowsDetermine(r, Part(Collected(outputs), n, i), outputs, i * (TotalSize(outputs) / n), (i + 1) * (TotalSize(outputs) / n));
  }

  lemma WholeIsMeantIff(whole: DataProto, f: DataProtoFuture)
    requires AllValid(f.outputs) && Gettable(f) && f.dispatch.Some? && whole == Collected(f.outputs)
    ensures Meant(whole, f) <==> f.dispatch.value.1 == 1 || TotalSize(f.outputs) == 0
  {
    hide Part, Collected, RowsOf, TotalSize, AllValid;
    var (i, n) := f.dispatch.value;
    CollectedIs(f.outputs);
    PartIsWholeIff(whole, n, i);
    PartRows(whole, f.outputs, n, i);
    if Meant(whole, f) {
      MeantIsPart(whole, f.outputs, i, n);
    }
  }

  lemma PartIsWholeIff(d: DataProto, n: nat, i: nat)
    requires d.Valid() && 0 < n && d.size % n == 0 && i < n
    ensures Part(d, n, i) == d <==> n == 1 || d.size == 0
  {
    var k := d.size / n;
    assert d.size == n * k;
    PartFits(d.size, n, i);
    assert (i + 1) * k == i * k + k;
    if n == 1 || d.size == 0 {
      assert i * k == 0 && (i + 1) * k == d.size;
      SliceAll(d);
    } else {
      MulMono(2, n, k);
      assert k < d.size;
    }
  }
}
