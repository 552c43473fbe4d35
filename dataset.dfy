/** Dataset (Dataset.h / Dataset.cpp): a table kept as one row-major vector
    `data` with its column names, the path it came from and a type tag. The
    in-memory constructor lays the rows end to end and names the columns
    "0", "1", ...; the 2-D export cuts the vector back into rows of
    |columns| values. Floats are modelled as exact reals, so the float to
    double conversion of the exports is the identity. */
module DatasetStore {
  import opened Wrappers
  import opened Layout

  const InMemoryType := "in-memory"
  const TargetColumn := "target"
  const RaggedMsg := "Inconsistent feature row sizes"
  const InvalidTypePrefix := "Invalid dataset type, must be train, test or val:"

  /** The three dataset types a file-backed Dataset accepts. */
  predicate ValidType(t: string)
  {
    t == "train" || t == "test" || t == "val"
  }

  // ---------------------------------------------------------------------------
  // Dummy column names: std::to_string on 0, 1, ...
  // ---------------------------------------------------------------------------

  function Digit(d: int): (c: char)
    requires 0 <= d < 10
    ensures '0' <= c <= '9'
  {
    ('0' as int + d) as char
  }

  /** The decimal digits of n without leading zeros, as std::to_string
      writes them. */
  function NatToString(n: nat): (s: string)
    ensures |s| > 0 && forall k :: 0 <= k < |s| ==> '0' <= s[k] <= '9'
  {
    if n < 10 then [Digit(n)] else NatToString(n / 10) + [Digit(n % 10)]
  }

  /** Reads a string of decimal digits back as a number. */
  function ParseNat(s: string): nat
    requires forall k :: 0 <= k < |s| ==> '0' <= s[k] <= '9'
  {
    if |s| == 0 then 0 else ParseNat(s[..|s| - 1]) * 10 + (s[|s| - 1] as int - '0' as int)
  }

  /** Every name NatToString writes reads back as the number it names. */
  lemma {:induction false} ParseNatToString(n: nat)
    ensures ParseNat(NatToString(n)) == n
  {
    if n >= 10 {
      ParseNatToString(n / 10);
      var s := NatToString(n);
      assert s[..|s| - 1] == NatToString(n / 10);
    }
  }

  /** Distinct columns get distinct names. */
  lemma NatToStringInjective(i: nat, j: nat)
    requires i != j
    ensures NatToString(i) != NatToString(j)
  {
    ParseNatToString(i);
    ParseNatToString(j);
  }

  /** The dummy names of c columns. */
  function DummyColumns(c: nat): (cols: seq<string>)
    ensures |cols| == c
    ensures forall j :: 0 <= j < c ==> cols[j] == NatToString(j)
  {
    seq(c, j requires 0 <= j => NatToString(j))
  }

  /** The dummy names are pairwise distinct. */
  lemma DummyColumnsDistinct(c: nat)
    ensures forall i, j :: 0 <= i < j < c ==> DummyColumns(c)[i] != DummyColumns(c)[j]
  {
    forall i, j | 0 <= i < j < c ensures DummyColumns(c)[i] != DummyColumns(c)[j] {
      NatToStringInjective(i, j);
    }
  }

  // ---------------------------------------------------------------------------
  // The table view of the stored vector
  // ---------------------------------------------------------------------------

  /** What get_data_as_double_2d answers: nothing without columns, otherwise
      every whole row of |columns| values. */
  function Table(data: seq<real>, columns: seq<string>): (t: seq<seq<real>>)
  {
    if |columns| == 0 then [] else Reshape(data, |columns|)
  }

  /** The export of an in-memory feature table gives back its rows, provided
      they have at least one column. */
  lemma TableOfFeatures(features: seq<seq<real>>)
    requires |features| > 0 && |features[0]| > 0 && Rect(features, |features[0]|)
    ensures Table(Flatten(features), DummyColumns(|features[0]|)) == features
  {
    ReshapeFlatten(features, |features[0]|);
  }

  /** A targets-only table exports every target as a one-value row. */
  lemma {:induction false} TableOfTargets(targets: seq<real>)
    ensures |Table(targets, [TargetColumn])| == |targets|
    ensures forall i :: 0 <= i < |targets| ==> Table(targets, [TargetColumn])[i] == [targets[i]]
  {
    ReshapeLength(targets, 1);
    forall i | 0 <= i < |targets| ensures Table(targets, [TargetColumn])[i] == [targets[i]] {
      ReshapeRow(targets, 1, i);
    }
  }

  // ---------------------------------------------------------------------------
  // The Dataset object
  // ---------------------------------------------------------------------------

  class Dataset {
    var filePath: string
    /** `type` in the source; renamed because `type` is a Dafny keyword. */
    var kind: string
    var data: seq<real>
    var columns: seq<string>

    /** The members' values once a constructor has finished. */
    constructor Init(filePath: string, kind: string, data: seq<real>, columns: seq<string>)
      ensures this.filePath == filePath && this.kind == kind && this.data == data && this.columns == columns
    {
      this.filePath := filePath;
      this.kind := kind;
      this.data := data;
      this.columns := columns;
    }

    function GetData(): (d: seq<real>)
      reads this
      ensures d == data
    {
      data
    }

    function GetPath(): (p: string)
      reads this
      ensures p == filePath
    {
      filePath
    }

    function GetType(): (t: string)
      reads this
      ensures t == kind
    {
      kind
    }

    function GetColumns(): (c: seq<string>)
      reads this
      ensures c == columns
    {
      columns
    }

    /** get_data_as_double_2d: row i, column j is data[i * c + j] for the
        floor(|data| / c) whole rows; a trailing partial row is dropped. */
    method Export2D() returns (out: seq<seq<real>>)
      ensures out == Table(data, columns)
      ensures |columns| == 0 ==> out == []
      ensures |columns| > 0 ==> |out| == |data| / |columns| && Rect(out, |columns|)
    {
      var nCols := |columns|;
      if nCols == 0 {
        return [];
      }
      out := ReshapeRows(data, nCols);
      ReshapeLength(data, nCols);
    }

    /** get_data_as_double_1d: every value, in order. */
    method Export1D() returns (out: seq<real>)
      ensures |out| == |data| && forall i :: 0 <= i < |data| ==> out[i] == data[i]
    {
      out := seq(|data|, _ => 0.0);
      for i := 0 to |data|
        invariant |out| == |data|
        invariant forall k :: 0 <= k < i ==> out[k] == data[k]
      {
        out := out[i := data[i]];
      }
    }

    /** set_data replaces the values and the column names, nothing else. */
    method SetData(newData: seq<real>, newCols: seq<string>)
      modifies this
      ensures data == newData && columns == newCols
      ensures filePath == old(filePath) && kind == old(kind)
    {
      data := newData;
      columns := newCols;
    }

    /** set_path replaces the path, nothing else. */
    method SetPath(newPath: string)
      modifies this
      ensures filePath == newPath
      ensures kind == old(kind) && data == old(data) && columns == old(columns)
    {
      filePath := newPath;
    }

    /** set_type replaces the type, nothing else. */
    method SetType(newType: string)
      modifies this
      ensures kind == newType
      ensures filePath == old(filePath) && data == old(data) && columns == old(columns)
    {
      kind := newType;
    }
  }

  /** The table a file read leaves in d: empty when the file could not be
      opened, otherwise the header's names and the parsed values. */
  ghost predicate ReadInto(d: Dataset, read: Option<(seq<string>, seq<real>)>)
    reads d
  {
    if read.None? then d.data == [] && d.columns == []
    else d.columns == read.value.0 && d.data == read.value.1
  }

  /** The file constructor: the type is checked before anything is read.
      read_csv is not modelled; `read` is what it leaves behind: None when
      the file cannot be opened (the error is only logged, and the table
      stays empty), otherwise the header's names and the parsed values. */
  method NewFromFile(path: string, dataType: string, read: Option<(seq<string>, seq<real>)>)
    returns (r: Result<Dataset>)
    ensures !ValidType(dataType) ==> r == Err(InvalidArgument(InvalidTypePrefix + dataType))
    ensures ValidType(dataType) ==>
      r.Ok? && fresh(r.value) && r.value.filePath == path && r.value.kind == dataType && ReadInto(r.value, read)
  {
    if dataType != "train" && dataType != "test" && dataType != "val" {
      return Err(InvalidArgument(InvalidTypePrefix + dataType));
    }
    var d: Dataset;
    if read.None? {
      d := new Dataset.Init(path, dataType, [], []);
    } else {
      d := new Dataset.Init(path, dataType, read.value.1, read.value.0);
    }
    r := Ok(d);
  }

  /** The name loop of the in-memory constructor. */
  method NameColumns(c: nat) returns (cols: seq<string>)
    ensures cols == DummyColumns(c)
  {
    cols := [];
    for j := 0 to c
      invariant cols == DummyColumns(j)
    {
      cols := cols + [NatToString(j)];
    }
  }

  /** The flatten loop: rows are appended while they have the first row's
      width; the first row of another width stops it. */
  method FlattenRows(features: seq<seq<real>>, c: nat) returns (r: Result<seq<real>>)
    ensures Rect(features, c) ==> r == Ok(Flatten(features))
    ensures !Rect(features, c) ==> r == Err(InvalidArgument(RaggedMsg))
  {
    var data: seq<real> := [];
    for i := 0 to |features|
      invariant Rect(features[..i], c)
      invariant data == Flatten(features[..i])
    {
      if |features[i]| != c {
        return Err(InvalidArgument(RaggedMsg));
      }
      FlattenSnoc(features[..i], features[i]);
      assert features[..i + 1] == features[..i] + [features[i]];
      data := data + features[i];
    }
    assert features[..|features|] == features;
    r := Ok(data);
  }

  /** The in-memory constructor: a feature table when there are feature
      rows (columns "0" .. "c-1" for the first row's width c, the rows laid
      end to end, any row of another width rejected); otherwise a single
      "target" column holding the targets; otherwise an empty table. */
  method NewInMemory(features: seq<seq<real>>, targets: seq<real>) returns (r: Result<Dataset>)
    ensures |features| > 0 && !Rect(features, |features[0]|) ==> r == Err(InvalidArgument(RaggedMsg))
    ensures |features| > 0 && Rect(features, |features[0]|) ==>
      r.Ok? && fresh(r.value) && r.value.kind == InMemoryType && r.value.filePath == "" &&
      r.value.columns == DummyColumns(|features[0]|) && r.value.data == Flatten(features)
    ensures |features| == 0 && |targets| > 0 ==>
      r.Ok? && fresh(r.value) && r.value.kind == InMemoryType && r.value.filePath == "" &&
      r.value.columns == [TargetColumn] && r.value.data == targets
    ensures |features| == 0 && |targets| == 0 ==>
      r.Ok? && fresh(r.value) && r.value.kind == InMemoryType && r.value.filePath == "" &&
      r.value.columns == [] && r.value.data == []
  {
    if |features| > 0 {
      var nCols := |features[0]|;
      var cols := NameColumns(nCols);
      var flat := FlattenRows(features, nCols);
      if flat.Err? {
        return Err(flat.error);
      }
      var d := new Dataset.Init("", InMemoryType, flat.value, cols);
      return Ok(d);
    } else if |targets| > 0 {
      var d := new Dataset.Init("", InMemoryType, targets, [TargetColumn]);
      return Ok(d);
    }
    var d := new Dataset.Init("", InMemoryType, [], []);
    r := Ok(d);
  }
}
