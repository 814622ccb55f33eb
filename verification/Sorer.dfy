/**
 Reading .sor text: the two parsers of a row, the schema inferred from the first rows,
 and the columns made of the valid rows.
 */
module Sorer {
  import opened Messages
  import opened Codec
  import opened FieldArrays

  /** The byte positions of the '<' and the '>' of a field. */
  type Field = (nat, nat)

  const LESS: byte := 60
  const GREATER: byte := 62
  const NEWLINE: byte := 10

  /** A row ends at a newline, at EOF (the char -1) or at NUL. */
  predicate IsEnd(c: byte) { c == NEWLINE || c == 255 || c == 0 }

  /** The first '>' from i on; nothing if a newline comes first, on which the code aborts,
      or the text runs out. */
  function FieldEnd(file: seq<byte>, i: nat): (r: Option<nat>)
    ensures r.Some? ==> i <= r.value < |file| && file[r.value] == GREATER
    ensures r.Some? ==> forall k :: i <= k < r.value ==> file[k] != GREATER && file[k] != NEWLINE
    decreases |file| - i
  {
    if i >= |file| then None
    else if file[i] == GREATER then Some(i)
    else if file[i] == NEWLINE then None
    else FieldEnd(file, i + 1)
  }

  /** The fields of the row that starts at start, and where it stops. */
  function ScanRow(file: seq<byte>, start: nat): (r: Option<(seq<Field>, nat)>)
    ensures r.Some? ==> start <= r.value.1 < |file| && IsEnd(file[r.value.1])
    decreases |file| - start
  {
    if start >= |file| then None
    else if IsEnd(file[start]) then Some(([], start))
    else if file[start] == LESS then
      match FieldEnd(file, start + 1)
      case None => None
      case Some(e) =>
        match ScanRow(file, e + 1)
        case None => None
        case Some(rest) => Some(([(start, e)] + rest.0, rest.1))
    else ScanRow(file, start + 1)
  }

  predicate Spans(file: seq<byte>, f: Field) {
    && f.0 < f.1 < |file| && file[f.0] == LESS && file[f.1] == GREATER
    && forall k :: f.0 < k < f.1 ==> file[k] != GREATER && file[k] != NEWLINE
  }

  predicate InField(fields: seq<Field>, p: int) {
    exists k :: 0 <= k < |fields| && fields[k].0 <= p <= fields[k].1
  }

  /** What the fields of a row are: they span, in order, and outside of them there is
      neither a '<' nor an end character in front of where the row stops. */
  ghost predicate IsRow(file: seq<byte>, start: nat, fields: seq<Field>, stop: int) {
    && start <= stop < |file| && IsEnd(file[stop])
    && (forall k {:trigger Spans(file, fields[k])} :: 0 <= k < |fields| ==>
          Spans(file, fields[k]) && start <= fields[k].0 && fields[k].1 < stop)
    && (forall j, k :: 0 <= j < k < |fields| ==> fields[j].1 < fields[k].0)
    && (forall p {:trigger InField(fields, p)} :: start <= p < stop && (file[p] == LESS || IsEnd(file[p])) ==>
          InField(fields, p))
  }

  lemma InFieldMore(fields: seq<Field>, f: Field, p: int)
    requires f.0 <= p <= f.1 || InField(fields, p)
    ensures InField([f] + fields, p)
  {
    var all := [f] + fields;
    if f.0 <= p <= f.1 {
      assert all[0].0 <= p <= all[0].1;
    } else {
      var k :| 0 <= k < |fields| && fields[k].0 <= p <= fields[k].1;
      assert all[k + 1].0 <= p <= all[k + 1].1;
    }
  }

  lemma OneFieldMore(file: seq<byte>, start: nat, e: nat, fields: seq<Field>, stop: int)
    requires Spans(file, (start, e)) && IsRow(file, e + 1, fields, stop)
    ensures IsRow(file, start, [(start, e)] + fields, stop)
  {
    var all := [(start, e)] + fields;
    forall k | 0 <= k < |all|
      ensures Spans(file, all[k]) && start <= all[k].0 && all[k].1 < stop && (k > 0 ==> e < all[k].0)
    {
      if k > 0 {
        assert Spans(file, fields[k - 1]);
      }
    }
    forall p | start <= p < stop && (file[p] == LESS || IsEnd(file[p]))
      ensures InField(all, p)
    {
      assert p > e ==> InField(fields, p);
      InFieldMore(fields, (start, e), p);
    }
  }

  lemma StepBack(file: seq<byte>, start: nat, fields: seq<Field>, stop: int)
    requires IsRow(file, start + 1, fields, stop) && !IsEnd(file[start]) && file[start] != LESS
    ensures IsRow(file, start, fields, stop)
  {
    forall k | 0 <= k < |fields|
      ensures Spans(file, fields[k]) && start <= fields[k].0 && fields[k].1 < stop
    {
      assert Spans(file, fields[k]);
    }
    forall p | start <= p < stop && (file[p] == LESS || IsEnd(file[p]))
      ensures InField(fields, p)
    {
      assert p == start || InField(fields, p);
    }
  }

  /** Every field of a row spans a '<' and the first '>' behind it, in order, and every '<'
      of the row that is in no other field begins one. */
  lemma {:induction false} FieldsSpan(file: seq<byte>, start: nat)
    requires ScanRow(file, start).Some?
    ensures IsRow(file, start, ScanRow(file, start).value.0, ScanRow(file, start).value.1)
    decreases |file| - start
  {
    if IsEnd(file[start]) {
    } else if file[start] == LESS {
      var e := FieldEnd(file, start + 1).value;
      FieldsSpan(file, e + 1);
      OneFieldMore(file, start, e, ScanRow(file, e + 1).value.0, ScanRow(file, e + 1).value.1);
    } else {
      FieldsSpan(file, start + 1);
      StepBack(file, start, ScanRow(file, start).value.0, ScanRow(file, start).value.1);
    }
  }

  /** A '<' at which a row starts begins its first field. */
  lemma FirstField(file: seq<byte>, start: nat, fields: seq<Field>, stop: int)
    requires IsRow(file, start, fields, stop) && file[start] == LESS
    ensures fields != [] && Spans(file, fields[0]) && fields[0].0 == start
    ensures IsRow(file, fields[0].1 + 1, fields[1..], stop)
  {
    assert InField(fields, start);
    var f :| 0 <= f < |fields| && fields[f].0 <= start <= fields[f].1;
    assert Spans(file, fields[f]) && Spans(file, fields[0]);
    var rest := fields[1..];
    forall k | 0 <= k < |rest|
      ensures Spans(file, rest[k]) && fields[0].1 + 1 <= rest[k].0 && rest[k].1 < stop
    {
      assert Spans(file, fields[k + 1]);
    }
    forall p | fields[0].1 + 1 <= p < stop && (file[p] == LESS || IsEnd(file[p]))
      ensures InField(rest, p)
    {
      assert InField(fields, p);
      var k :| 0 <= k < |fields| && fields[k].0 <= p <= fields[k].1;
      assert rest[k - 1] == fields[k];
    }
  }

  lemma HasRoom(file: seq<byte>, start: nat, fields: seq<Field>, stop: int)
    requires IsRow(file, start, fields, stop) && fields != []
    ensures start < stop
  {
    assert Spans(file, fields[0]);
  }

  lemma NoField(file: seq<byte>, start: nat, fields: seq<Field>, stop: int)
    requires IsRow(file, start, fields, stop) && IsEnd(file[start])
    ensures fields == [] && stop == start
  {
    if fields != [] {
      HasRoom(file, start, fields, stop);
    }
    forall k | 0 <= k < |fields|
      ensures start < fields[k].0
    {
      assert Spans(file, fields[k]);
    }
    assert !InField(fields, start);
  }

  lemma StepOver(file: seq<byte>, start: nat, fields: seq<Field>, stop: int)
    requires IsRow(file, start, fields, stop) && !IsEnd(file[start]) && file[start] != LESS
    ensures IsRow(file, start + 1, fields, stop)
  {
    forall k | 0 <= k < |fields|
      ensures Spans(file, fields[k]) && start + 1 <= fields[k].0
    {
      assert Spans(file, fields[k]);
    }
  }

  lemma {:induction false} FirstEnd(file: seq<byte>, i: nat, e: nat)
    requires i <= e < |file| && file[e] == GREATER
    requires forall k :: i <= k < e ==> file[k] != GREATER && file[k] != NEWLINE
    ensures FieldEnd(file, i) == Some(e)
    decreases e - i
  {
    if i < e {
      FirstEnd(file, i + 1, e);
    }
  }

  lemma FieldScanned(file: seq<byte>, fields: seq<Field>, stop: nat)
    requires fields != [] && Spans(file, fields[0])
    requires ScanRow(file, fields[0].1 + 1) == Some((fields[1..], stop))
    ensures ScanRow(file, fields[0].0) == Some((fields, stop))
  {
    FirstEnd(file, fields[0].0 + 1, fields[0].1);
    assert fields == [(fields[0].0, fields[0].1)] + fields[1..];
  }

  lemma {:induction false} RowIsScanned(file: seq<byte>, start: nat, fields: seq<Field>, stop: int)
    requires IsRow(file, start, fields, stop)
    ensures ScanRow(file, start) == Some((fields, stop))
    decreases |file| - start
  {
    if IsEnd(file[start]) {
      NoField(file, start, fields, stop);
    } else if file[start] == LESS {
      FirstField(file, start, fields, stop);
      RowIsScanned(file, fields[0].1 + 1, fields[1..], stop);
      FieldScanned(file, fields, stop);
    } else {
      StepOver(file, start, fields, stop);
      RowIsScanned(file, start + 1, fields, stop);
    }
  }

  /** The scan finds just the row there is, and fails only where there is none. */
  lemma ScanRowIff(file: seq<byte>, start: nat, fields: seq<Field>, stop: nat)
    ensures ScanRow(file, start) == Some((fields, stop)) <==> IsRow(file, start, fields, stop)
  {
    if ScanRow(file, start).Some? {
      FieldsSpan(file, start);
    }
    if IsRow(file, start, fields, stop) {
      RowIsScanned(file, start, fields, stop);
    }
  }

  /** Row k goes from where it starts up to the end character in front of the next. */
  ghost predicate IsRowNumber(file: seq<byte>, starts: seq<nat>, lines: seq<seq<Field>>, k: nat)
    requires k < |lines| < |starts|
  {
    starts[k + 1] > 0 && IsRow(file, starts[k], lines[k], starts[k + 1] - 1)
  }

  /** Rows, each of which starts right behind the end of the one before it. */
  ghost predicate AreRows(file: seq<byte>, starts: seq<nat>, lines: seq<seq<Field>>) {
    |starts| == |lines| + 1 && forall k :: 0 <= k < |lines| ==> IsRowNumber(file, starts, lines, k)
  }

  lemma OneRowMore(file: seq<byte>, start: nat, line: seq<Field>, starts: seq<nat>, lines: seq<seq<Field>>)
    requires AreRows(file, starts, lines) && starts[0] > 0 && IsRow(file, start, line, starts[0] - 1)
    ensures AreRows(file, [start] + starts, [line] + lines)
  {
    forall k | 0 <= k < |lines| + 1
      ensures IsRowNumber(file, [start] + starts, [line] + lines, k)
    {
      if k > 0 {
        assert IsRowNumber(file, starts, lines, k - 1);
      }
    }
  }

  lemma OneRowLess(file: seq<byte>, starts: seq<nat>, lines: seq<seq<Field>>)
    requires AreRows(file, starts, lines) && lines != []
    ensures starts[1] > 0 && ScanRow(file, starts[0]) == Some((lines[0], starts[1] - 1))
    ensures AreRows(file, starts[1..], lines[1..])
  {
    assert IsRowNumber(file, starts, lines, 0);
    RowIsScanned(file, starts[0], lines[0], starts[1] - 1);
    forall k | 0 <= k < |lines| - 1
      ensures IsRowNumber(file, starts[1..], lines[1..], k)
    {
      assert IsRowNumber(file, starts, lines, k + 1);
    }
  }

  /** The inner loop of both parsers. */
  method FindFieldEnd(file: seq<byte>, start: nat) returns (fieldEnd: nat)
    requires FieldEnd(file, start + 1).Some?
    ensures FieldEnd(file, start + 1) == Some(fieldEnd)
  {
    fieldEnd := start + 1;
    while file[fieldEnd] != GREATER
      invariant FieldEnd(file, fieldEnd) == FieldEnd(file, start + 1)
      decreases |file| - fieldEnd
    {
      assert file[fieldEnd] != NEWLINE;
      fieldEnd := fieldEnd + 1;
    }
  }

  /** The type of each field. */
  function TypesOf(fields: seq<Field>, classify: Field -> DataType): (r: seq<DataType>)
    ensures |r| == |fields| && forall k :: 0 <= k < |r| ==> r[k] == classify(fields[k])
  {
    seq(|fields|, k requires 0 <= k < |fields| => classify(fields[k]))
  }

  lemma MoveOver(done: seq<Field>, f: Field, rest: seq<Field>)
    ensures done + ([f] + rest) == (done + [f]) + rest
  {
  }

  /** parse_row_schema: the types of the row's fields, of all and in order, are appended. */
  method ParseRowSchema(file: seq<byte>, start: nat, rowSchema: seq<DataType>, classify: Field -> DataType)
    returns (pos: nat, types: seq<DataType>)
    requires ScanRow(file, start).Some?
    ensures pos == ScanRow(file, start).value.1 && IsRow(file, start, ScanRow(file, start).value.0, pos)
    ensures types == rowSchema + TypesOf(ScanRow(file, start).value.0, classify)
  {
    pos, types := start, rowSchema;
    ghost var done: seq<Field> := [];
    while !IsEnd(file[pos])
      invariant ScanRow(file, pos).Some? && ScanRow(file, pos).value.1 == ScanRow(file, start).value.1
      invariant done + ScanRow(file, pos).value.0 == ScanRow(file, start).value.0
      invariant types == rowSchema + TypesOf(done, classify)
      decreases |file| - pos
    {
      if file[pos] == LESS {
        var fieldEnd := FindFieldEnd(file, pos);
        types := types + [classify((pos, fieldEnd))];
        MoveOver(done, (pos, fieldEnd), ScanRow(file, fieldEnd + 1).value.0);
        done := done + [(pos, fieldEnd)];
        pos := fieldEnd + 1;
      } else {
        pos := pos + 1;
      }
    }
    assert done == ScanRow(file, start).value.0;
    FieldsSpan(file, start);
  }

  /** A byte position as the int that FieldArray keeps. */
  function ToInt(n: nat): int { (n + 0x8000_0000) % 0x1_0000_0000 - 0x8000_0000 }

  function AsInts(f: Field): (int, int) { (ToInt(f.0), ToInt(f.1)) }

  function AllAsInts(fields: seq<Field>): (r: seq<(int, int)>)
    ensures |r| == |fields| && forall k :: 0 <= k < |r| ==> r[k] == AsInts(fields[k])
  {
    seq(|fields|, k requires 0 <= k < |fields| => AsInts(fields[k]))
  }

  lemma OneMoreAsInts(fields: seq<Field>, f: Field)
    ensures AllAsInts(fields + [f]) == AllAsInts(fields) + [AsInts(f)]
  {
  }

  /** parse_row_fields: the same fields, as positions; it stops where parse_row_schema does. */
  method ParseRowFields(file: seq<byte>, start: nat, row: FieldArray) returns (pos: nat)
    requires ScanRow(file, start).Some? && row.Valid()
    modifies row.Repr
    ensures row.Valid() && fresh(row.Repr - old(row.Repr))
    ensures pos == ScanRow(file, start).value.1 && IsRow(file, start, ScanRow(file, start).value.0, pos)
    ensures row.Fields == old(row.Fields) + AllAsInts(ScanRow(file, start).value.0)
  {
    pos := start;
    ghost var done: seq<Field> := [];
    while !IsEnd(file[pos])
      invariant row.Valid() && fresh(row.Repr - old(row.Repr))
      invariant ScanRow(file, pos).Some? && ScanRow(file, pos).value.1 == ScanRow(file, start).value.1
      invariant done + ScanRow(file, pos).value.0 == ScanRow(file, start).value.0
      invariant row.Fields == old(row.Fields) + AllAsInts(done)
      decreases |file| - pos
    {
      if file[pos] == LESS {
        var fieldEnd := FindFieldEnd(file, pos);
        row.PushBack(ToInt(pos), ToInt(fieldEnd));
        MoveOver(done, (pos, fieldEnd), ScanRow(file, fieldEnd + 1).value.0);
        OneMoreAsInts(done, (pos, fieldEnd));
        done := done + [(pos, fieldEnd)];
        pos := fieldEnd + 1;
      } else {
        pos := pos + 1;
      }
    }
    assert done == ScanRow(file, start).value.0;
    FieldsSpan(file, start);
  }

  // ----- the schema -----

  /** The order of the enum: a higher type can hold more. */
  function Rank(t: DataType): nat {
    match t
    case Boolean => 1
    case Integer => 2
    case Double => 3
    case Str => 4
  }

  function Higher(a: DataType, b: DataType): DataType { if Rank(a) < Rank(b) then b else a }

  /** What one more row does to the schema so far. */
  function JoinRow(acc: seq<DataType>, row: seq<DataType>): (r: seq<DataType>)
    ensures |r| == if |acc| >= |row| then |acc| else |row|
  {
    seq(if |acc| >= |row| then |acc| else |row|,
        j requires 0 <= j < |acc| || 0 <= j < |row| =>
          if j >= |row| then acc[j] else if j >= |acc| then row[j] else Higher(acc[j], row[j]))
  }

  function Join(rows: seq<seq<DataType>>): seq<DataType> {
    if rows == [] then [] else JoinRow(Join(rows[..|rows| - 1]), rows[|rows| - 1])
  }

  /** The types of at most n rows from start on; scanning stops at EOF or NUL where a row
      would start. */
  function RowTypes(file: seq<byte>, start: nat, n: nat, classify: Field -> DataType): Option<seq<seq<DataType>>>
    decreases n
  {
    if n == 0 then Some([])
    else if start >= |file| then None
    else if file[start] == 255 || file[start] == 0 then Some([])
    else
      match ScanRow(file, start)
      case None => None
      case Some(row) =>
        match RowTypes(file, row.1 + 1, n - 1, classify)
        case None => None
        case Some(rest) => Some([TypesOf(row.0, classify)] + rest)
  }

  function AllTypes(lines: seq<seq<Field>>, classify: Field -> DataType): (r: seq<seq<DataType>>)
    ensures |r| == |lines| && forall k :: 0 <= k < |r| ==> r[k] == TypesOf(lines[k], classify)
  {
    seq(|lines|, k requires 0 <= k < |lines| => TypesOf(lines[k], classify))
  }

  predicate NoMoreRows(file: seq<byte>, p: nat) { p < |file| && (file[p] == 255 || file[p] == 0) }

  /** The first rows of a text: n of them, or fewer if EOF or NUL stands behind the last. */
  ghost predicate FirstRows(file: seq<byte>, start: nat, n: nat, starts: seq<nat>, lines: seq<seq<Field>>) {
    && AreRows(file, starts, lines) && starts[0] == start && |lines| <= n
    && (forall k :: 0 <= k < |lines| ==> !NoMoreRows(file, starts[k]))
    && (|lines| < n ==> NoMoreRows(file, starts[|lines|]))
  }

  /** RowTypes gives the types of just these rows. */
  lemma {:induction false} RowTypesAre(file: seq<byte>, start: nat, n: nat, classify: Field -> DataType)
    returns (starts: seq<nat>, lines: seq<seq<Field>>)
    requires RowTypes(file, start, n, classify).Some?
    ensures FirstRows(file, start, n, starts, lines)
    ensures RowTypes(file, start, n, classify).value == AllTypes(lines, classify)
    decreases n
  {
    if n == 0 || NoMoreRows(file, start) {
      return [start], [];
    }
    var row := ScanRow(file, start).value;
    starts, lines := RowTypesAre(file, row.1 + 1, n - 1, classify);
    FieldsSpan(file, start);
    OneRowMore(file, start, row.0, starts, lines);
    starts, lines := [start] + starts, [row.0] + lines;
  }

  lemma {:induction false} FirstRowsTyped(file: seq<byte>, start: nat, n: nat, classify: Field -> DataType,
                                          starts: seq<nat>, lines: seq<seq<Field>>)
    requires FirstRows(file, start, n, starts, lines)
    ensures RowTypes(file, start, n, classify) == Some(AllTypes(lines, classify))
    decreases n
  {
    if lines != [] {
      OneRowLess(file, starts, lines);
      FirstRowsTyped(file, starts[1], n - 1, classify, starts[1..], lines[1..]);
      assert AllTypes(lines, classify) == [TypesOf(lines[0], classify)] + AllTypes(lines[1..], classify);
    }
  }

  /** The types that the schema is inferred from are those of the text's first rows. */
  lemma RowTypesIff(file: seq<byte>, start: nat, n: nat, classify: Field -> DataType, types: seq<seq<DataType>>)
    ensures RowTypes(file, start, n, classify) == Some(types) <==>
              exists starts, lines :: FirstRows(file, start, n, starts, lines) && types == AllTypes(lines, classify)
  {
    if RowTypes(file, start, n, classify) == Some(types) {
      var starts, lines := RowTypesAre(file, start, n, classify);
    }
    forall starts, lines | FirstRows(file, start, n, starts, lines) && types == AllTypes(lines, classify)
      ensures RowTypes(file, start, n, classify) == Some(types)
    {
      FirstRowsTyped(file, start, n, classify, starts, lines);
    }
  }

  /** The inner loop of parse_schema. */
  method AddRow(result: seq<DataType>, curr: seq<DataType>) returns (r: seq<DataType>)
    ensures r == JoinRow(result, curr)
  {
    r := result;
    var resultLen := |result|;
    for j := 0 to |curr|
      invariant |r| == if j > resultLen then j else resultLen
      invariant forall k :: 0 <= k < j ==> r[k] == JoinRow(result, curr)[k]
      invariant forall k :: j <= k < |r| ==> r[k] == result[k]
    {
      if j >= resultLen {
        r := r + [curr[j]];
      } else if Rank(r[j]) < Rank(curr[j]) {
        r := r[j := curr[j]];
      }
    }
  }

  lemma JoinMore(rows: seq<seq<DataType>>, row: seq<DataType>)
    ensures Join(rows + [row]) == JoinRow(Join(rows), row)
  {
    assert (rows + [row])[..|rows|] == rows;
  }

  lemma NothingInFront(types: seq<DataType>)
    ensures [] + types == types
  {
  }

  /** One turn of parse_schema's loop. */
  method JoinNextRow(file: seq<byte>, start: nat, result: seq<DataType>, classify: Field -> DataType,
                     ghost done: seq<seq<DataType>>)
    returns (pos: nat, r: seq<DataType>)
    requires ScanRow(file, start).Some? && result == Join(done)
    ensures pos == ScanRow(file, start).value.1
    ensures r == Join(done + [TypesOf(ScanRow(file, start).value.0, classify)])
  {
    var curr;
    pos, curr := ParseRowSchema(file, start, [], classify);
    NothingInFront(TypesOf(ScanRow(file, start).value.0, classify));
    JoinMore(done, curr);
    r := AddRow(result, curr);
  }

  /** With the rows done, at most n from start on make up all of them. */
  ghost predicate RowsLeft(file: seq<byte>, start: nat, n: nat, classify: Field -> DataType,
                           done: seq<seq<DataType>>, all: seq<seq<DataType>>)
  {
    RowTypes(file, start, n, classify).Some? && done + RowTypes(file, start, n, classify).value == all
  }

  lemma NoneLeft(file: seq<byte>, start: nat, n: nat, classify: Field -> DataType, done: seq<seq<DataType>>,
                 all: seq<seq<DataType>>)
    requires RowsLeft(file, start, n, classify, done, all)
    ensures n > 0 ==> start < |file|
    ensures n == 0 || NoMoreRows(file, start) ==> done == all
  {
  }

  /** The next row moves over to those that are done. */
  lemma RowTaken(file: seq<byte>, start: nat, n: nat, classify: Field -> DataType, done: seq<seq<DataType>>,
                 all: seq<seq<DataType>>)
    requires n > 0 && RowsLeft(file, start, n, classify, done, all) && !NoMoreRows(file, start)
    ensures ScanRow(file, start).Some?
    ensures var row := ScanRow(file, start).value;
      RowsLeft(file, row.1 + 1, n - 1, classify, done + [TypesOf(row.0, classify)], all)
  {
    var row := ScanRow(file, start).value;
    MoveRowOver(done, TypesOf(row.0, classify), RowTypes(file, row.1 + 1, n - 1, classify).value);
  }

  /** The loop of parse_schema. */
  method JoinFirstRows(file: seq<byte>, limit: nat, classify: Field -> DataType) returns (result: seq<DataType>)
    requires RowTypes(file, 0, limit, classify).Some?
    ensures result == Join(RowTypes(file, 0, limit, classify).value)
  {
    result := [];
    var start: nat := 0;
    ghost var done: seq<seq<DataType>> := [];
    ghost var all := RowTypes(file, 0, limit, classify).value;
    for i := 0 to limit
      invariant RowsLeft(file, start, limit - i, classify, done, all) && result == Join(done)
    {
      NoneLeft(file, start, limit - i, classify, done, all);
      if file[start] == 255 || file[start] == 0 {
        return;
      }
      RowTaken(file, start, limit - i, classify, done, all);
      ghost var types := TypesOf(ScanRow(file, start).value.0, classify);
      var pos;
      pos, result := JoinNextRow(file, start, result, classify, done);
      done := done + [types];
      start := pos + 1;
    }
    NoneLeft(file, start, 0, classify, done, all);
  }

  /** parse_schema, which has a limit of 500 rows, for a text that the scan of its first
      limit rows stays inside. */
  method ParseSchema(file: seq<byte>, limit: nat, classify: Field -> DataType) returns (result: seq<DataType>)
    requires RowTypes(file, 0, limit, classify).Some?
    ensures result == Join(RowTypes(file, 0, limit, classify).value)
    ensures Infers(RowTypes(file, 0, limit, classify).value, result)
  {
    result := JoinFirstRows(file, limit, classify);
    JoinInfers(RowTypes(file, 0, limit, classify).value);
  }

  lemma MoveRowOver(done: seq<seq<DataType>>, row: seq<DataType>, rest: seq<seq<DataType>>)
    ensures done + ([row] + rest) == (done + [row]) + rest
  {
  }

  /** Some row has the type t in column j. */
  ghost predicate Has(rows: seq<seq<DataType>>, j: nat, t: DataType) {
    exists i :: 0 <= i < |rows| && j < |rows[i]| && rows[i][j] == t
  }

  /** The schema is the join of the rows: every type in a row is at most the schema's type
      for its column, and the schema is no wider and no higher than the rows make it. */
  lemma {:induction false} JoinIsLeastUpperBound(rows: seq<seq<DataType>>)
    ensures forall i :: 0 <= i < |rows| ==> |rows[i]| <= |Join(rows)|
    ensures forall i, j :: 0 <= i < |rows| && 0 <= j < |rows[i]| ==> Rank(rows[i][j]) <= Rank(Join(rows)[j])
    ensures forall j :: 0 <= j < |Join(rows)| ==> Has(rows, j, Join(rows)[j])
  {
    if rows != [] {
      var front, last := rows[..|rows| - 1], rows[|rows| - 1];
      JoinIsLeastUpperBound(front);
      assert Join(rows) == JoinRow(Join(front), last);
      forall j | 0 <= j < |Join(rows)|
        ensures Has(rows, j, Join(rows)[j])
      {
        if j < |last| && Join(rows)[j] == last[j] {
          assert rows[|rows| - 1][j] == Join(rows)[j];
        } else {
          assert Join(rows)[j] == Join(front)[j] && Has(front, j, Join(front)[j]);
          var i :| 0 <= i < |front| && j < |front[i]| && front[i][j] == Join(front)[j];
          assert rows[i][j] == Join(rows)[j];
        }
      }
    }
  }

  /** What rows make of a schema: it is as wide as the widest of them, and a column is a
      string column if some row has a string there, else one of doubles if some row has a
      double, else one of integers if some row has an integer, and else boolean. */
  ghost predicate Infers(rows: seq<seq<DataType>>, schema: seq<DataType>) {
    && (forall i :: 0 <= i < |rows| ==> |rows[i]| <= |schema|)
    && (schema != [] ==> exists i :: 0 <= i < |rows| && |rows[i]| == |schema|)
    && (forall j :: 0 <= j < |schema| ==>
          && (schema[j] == Str <==> Has(rows, j, Str))
          && (schema[j] == Double <==> !Has(rows, j, Str) && Has(rows, j, Double))
          && (schema[j] == Integer <==> !Has(rows, j, Str) && !Has(rows, j, Double) && Has(rows, j, Integer)))
  }

  lemma JoinInfers(rows: seq<seq<DataType>>)
    ensures Infers(rows, Join(rows))
  {
    var schema := Join(rows);
    JoinIsLeastUpperBound(rows);
    if schema != [] {
      var j := |schema| - 1;
      assert Has(rows, j, schema[j]);
      var i :| 0 <= i < |rows| && j < |rows[i]| && rows[i][j] == schema[j];
      assert |rows[i]| == |schema|;
    }
    forall j, t | 0 <= j < |schema| && Has(rows, j, t)
      ensures Rank(t) <= Rank(schema[j])
    {
      var i :| 0 <= i < |rows| && j < |rows[i]| && rows[i][j] == t;
    }
  }

  /** A column of the first type takes a field of the second. */
  predicate Takes(column: DataType, t: DataType) {
    match column
    case Boolean => t == Boolean
    case Integer => t == Boolean || t == Integer
    case Double => t == Boolean || t == Integer || t == Double
    case Str => true
  }

  predicate ValidRow(rowTypes: seq<DataType>, schema: seq<DataType>) {
    |rowTypes| == |schema| && forall i :: 0 <= i < |schema| ==> Takes(schema[i], rowTypes[i])
  }

  method IsValidRow(rowTypes: seq<DataType>, schema: seq<DataType>) returns (b: bool)
    ensures b == ValidRow(rowTypes, schema)
  {
    if |rowTypes| == |schema| {
      for i := 0 to |schema|
        invariant forall k :: 0 <= k < i ==> Takes(schema[k], rowTypes[k])
      {
        if Rank(rowTypes[i]) > Rank(schema[i]) {
          return false;
        }
      }
      return true;
    }
    return false;
  }

  /** Of the rows that the schema was inferred from, exactly the full-width ones are valid. */
  lemma ScannedRowsAreValid(rows: seq<seq<DataType>>, i: nat)
    requires i < |rows|
    ensures ValidRow(rows[i], Join(rows)) <==> |rows[i]| == |Join(rows)|
  {
    JoinIsLeastUpperBound(rows);
  }

  // ----- the columns -----

  /** The rows from start on, up to an end character where a row would start, and the
      position of that: a blank line, EOF or NUL. */
  function Lines(file: seq<byte>, start: nat): (r: Option<(seq<seq<Field>>, nat)>)
    ensures r.Some? ==> start <= r.value.1 < |file| && IsEnd(file[r.value.1])
    decreases |file| - start
  {
    if start >= |file| then None
    else if IsEnd(file[start]) then Some(([], start))
    else
      match ScanRow(file, start)
      case None => None
      case Some(row) =>
        match Lines(file, row.1 + 1)
        case None => None
        case Some(rest) => Some(([row.0] + rest.0, rest.1))
  }

  /** The text from start to stop, which is where a row would start with an end character,
      cut into rows. */
  ghost predicate CutsInto(file: seq<byte>, start: nat, starts: seq<nat>, lines: seq<seq<Field>>, stop: nat) {
    && AreRows(file, starts, lines) && starts[0] == start && starts[|lines|] == stop
    && (forall k :: 0 <= k < |lines| ==> starts[k] < |file| && !IsEnd(file[starts[k]]))
    && stop < |file| && IsEnd(file[stop])
  }

  lemma {:induction false} LinesAre(file: seq<byte>, start: nat) returns (starts: seq<nat>)
    requires Lines(file, start).Some?
    ensures CutsInto(file, start, starts, Lines(file, start).value.0, Lines(file, start).value.1)
    decreases |file| - start
  {
    if IsEnd(file[start]) {
      return [start];
    }
    NextLine(file, start);
    var row := ScanRow(file, start).value;
    starts := LinesAre(file, row.1 + 1);
    FieldsSpan(file, start);
    OneRowMore(file, start, row.0, starts, Lines(file, row.1 + 1).value.0);
    starts := [start] + starts;
  }

  lemma {:induction false} CutsAreLines(file: seq<byte>, start: nat, starts: seq<nat>, lines: seq<seq<Field>>,
                                        stop: nat)
    requires CutsInto(file, start, starts, lines, stop)
    ensures Lines(file, start) == Some((lines, stop))
    decreases |lines|
  {
    if lines != [] {
      OneRowLess(file, starts, lines);
      CutsAreLines(file, starts[1], starts[1..], lines[1..], stop);
      assert lines == [lines[0]] + lines[1..];
    }
  }

  /** Cutting the text finds just the rows there are, and fails only where there are none. */
  lemma LinesIff(file: seq<byte>, start: nat, lines: seq<seq<Field>>, stop: nat)
    ensures Lines(file, start) == Some((lines, stop)) <==> exists starts :: CutsInto(file, start, starts, lines, stop)
  {
    if Lines(file, start) == Some((lines, stop)) {
      var starts := LinesAre(file, start);
    }
    forall starts | CutsInto(file, start, starts, lines, stop)
      ensures Lines(file, start) == Some((lines, stop))
    {
      CutsAreLines(file, start, starts, lines, stop);
    }
  }

  /** The rows that fit the schema. */
  function ValidLines(lines: seq<seq<Field>>, schema: seq<DataType>, classify: Field -> DataType): (r: seq<seq<Field>>)
    ensures forall k :: 0 <= k < |r| ==> |r[k]| == |schema|
  {
    if lines == [] then []
    else
      var last := lines[|lines| - 1];
      ValidLines(lines[..|lines| - 1], schema, classify) +
          if ValidRow(TypesOf(last, classify), schema) then [last] else []
  }

  /** Field number c of every row. */
  function ColumnOf(lines: seq<seq<Field>>, c: nat): (r: seq<(int, int)>)
    requires forall k :: 0 <= k < |lines| ==> c < |lines[k]|
    ensures |r| == |lines| && forall k :: 0 <= k < |r| ==> r[k] == AsInts(lines[k][c])
  {
    seq(|lines|, k requires 0 <= k < |lines| => AsInts(lines[k][c]))
  }

  /** Which of the rows fit the schema. */
  function Fitting(lines: seq<seq<Field>>, schema: seq<DataType>, classify: Field -> DataType): (r: seq<bool>)
    ensures |r| == |lines| && forall i :: 0 <= i < |r| ==> r[i] == ValidRow(TypesOf(lines[i], classify), schema)
  {
    seq(|lines|, i requires 0 <= i < |lines| => ValidRow(TypesOf(lines[i], classify), schema))
  }

  /** The places, in order, of what is marked. */
  ghost predicate ArePlaces(kept: seq<nat>, marked: seq<bool>) {
    && (forall k :: 0 <= k < |kept| ==> kept[k] < |marked| && marked[kept[k]])
    && (forall j, k :: 0 <= j < k < |kept| ==> kept[j] < kept[k])
    && (forall i {:trigger i in kept} :: 0 <= i < |marked| && marked[i] ==> i in kept)
  }

  lemma OnePlaceMore(kept: seq<nat>, marked: seq<bool>, last: bool)
    requires ArePlaces(kept, marked)
    ensures ArePlaces(if last then kept + [|marked|] else kept, marked + [last])
  {
    var more := if last then kept + [|marked|] else kept;
    forall k | 0 <= k < |more|
      ensures more[k] < |marked| + 1 && (marked + [last])[more[k]]
    {
      assert k < |kept| ==> marked[kept[k]] && more[k] == kept[k];
    }
    forall i | 0 <= i < |marked| + 1 && (marked + [last])[i]
      ensures i in more
    {
      assert i < |marked| ==> i in kept;
    }
  }

  lemma FittingMore(lines: seq<seq<Field>>, schema: seq<DataType>, classify: Field -> DataType)
    requires lines != []
    ensures var n := |lines| - 1;
      Fitting(lines, schema, classify)
        == Fitting(lines[..n], schema, classify) + [ValidRow(TypesOf(lines[n], classify), schema)]
  {
  }

  /** The rows at the given places. */
  ghost predicate StandAt(chosen: seq<seq<Field>>, lines: seq<seq<Field>>, kept: seq<nat>) {
    |chosen| == |kept| && forall k :: 0 <= k < |kept| ==> kept[k] < |lines| && chosen[k] == lines[kept[k]]
  }

  lemma OneMoreChosen(chosen: seq<seq<Field>>, lines: seq<seq<Field>>, kept: seq<nat>)
    requires lines != [] && StandAt(chosen, lines[..|lines| - 1], kept)
    ensures StandAt(chosen, lines, kept) && StandAt(chosen + [lines[|lines| - 1]], lines, kept + [|lines| - 1])
  {
  }

  lemma KeptMore(lines: seq<seq<Field>>, schema: seq<DataType>, classify: Field -> DataType, kept: seq<nat>)
    requires lines != []
    requires var front := lines[..|lines| - 1];
      ArePlaces(kept, Fitting(front, schema, classify)) && StandAt(ValidLines(front, schema, classify), front, kept)
    ensures var n := |lines| - 1;
      var more := if ValidRow(TypesOf(lines[n], classify), schema) then kept + [n] else kept;
      ArePlaces(more, Fitting(lines, schema, classify)) && StandAt(ValidLines(lines, schema, classify), lines, more)
  {
    var n := |lines| - 1;
    FittingMore(lines, schema, classify);
    OnePlaceMore(kept, Fitting(lines[..n], schema, classify), ValidRow(TypesOf(lines[n], classify), schema));
    OneMoreChosen(ValidLines(lines[..n], schema, classify), lines, kept);
  }

  /** No row that fits is lost, none is added and none changes place. */
  lemma {:induction false} ValidLinesAre(lines: seq<seq<Field>>, schema: seq<DataType>, classify: Field -> DataType)
    returns (kept: seq<nat>)
    ensures ArePlaces(kept, Fitting(lines, schema, classify))
    ensures StandAt(ValidLines(lines, schema, classify), lines, kept)
  {
    if lines == [] {
      return [];
    }
    var n := |lines| - 1;
    var front := ValidLinesAre(lines[..n], schema, classify);
    KeptMore(lines, schema, classify, front);
    kept := if ValidRow(TypesOf(lines[n], classify), schema) then front + [n] else front;
  }

  /** The columns of rows: what the field arrays, one for each column, hold. */
  function ColumnsOf(lines: seq<seq<Field>>, width: nat): (r: seq<seq<(int, int)>>)
    requires forall k :: 0 <= k < |lines| ==> |lines[k]| == width
    ensures |r| == width && forall c :: 0 <= c < width ==> r[c] == ColumnOf(lines, c)
  {
    seq(width, c requires 0 <= c < width => ColumnOf(lines, c))
  }

  /** The loop that appends one valid row to the columns. */
  method PushLine(columnar: seq<seq<(int, int)>>, row: FieldArray, ghost line: seq<Field>, ghost lines: seq<seq<Field>>)
    returns (r: seq<seq<(int, int)>>)
    requires row.Valid() && row.Fields == AllAsInts(line) && |line| == |columnar|
    requires (forall k :: 0 <= k < |lines| ==> |lines[k]| == |columnar|) && columnar == ColumnsOf(lines, |columnar|)
    ensures r == ColumnsOf(lines + [line], |columnar|)
  {
    r := columnar;
    for i := 0 to |columnar|
      invariant |r| == |columnar|
      invariant forall c :: 0 <= c < i ==> r[c] == ColumnOf(lines, c) + [AsInts(line[c])]
      invariant forall c :: i <= c < |columnar| ==> r[c] == columnar[c]
    {
      var start := row.GetStart(i);
      var end := row.GetEnd(i);
      r := r[i := r[i] + [(start, end)]];
    }
    forall c | 0 <= c < |columnar|
      ensures r[c] == ColumnsOf(lines + [line], |columnar|)[c]
    {
      assert ColumnOf(lines + [line], c) == ColumnOf(lines, c) + [AsInts(line[c])];
    }
  }

  lemma NextLine(file: seq<byte>, start: nat)
    requires Lines(file, start).Some? && !IsEnd(file[start])
    ensures ScanRow(file, start).Some?
    ensures var row := ScanRow(file, start).value;
      && Lines(file, row.1 + 1).Some? && Lines(file, start).value.1 == Lines(file, row.1 + 1).value.1
      && Lines(file, start).value.0 == [row.0] + Lines(file, row.1 + 1).value.0
  {
  }

  lemma ValidMore(lines: seq<seq<Field>>, line: seq<Field>, schema: seq<DataType>, classify: Field -> DataType)
    ensures ValidLines(lines + [line], schema, classify)
         == ValidLines(lines, schema, classify) + if ValidRow(TypesOf(line, classify), schema) then [line] else []
  {
    assert (lines + [line])[..|lines|] == lines;
  }

  lemma MoveLineOver(done: seq<seq<Field>>, line: seq<Field>, rest: seq<seq<Field>>)
    ensures done + ([line] + rest) == (done + [line]) + rest
  {
  }

  lemma ValidStay(lines: seq<seq<Field>>, schema: seq<DataType>, classify: Field -> DataType)
    ensures ValidLines(lines, schema, classify) + [] == ValidLines(lines, schema, classify)
  {
  }

  /** Whether the row at pos fits the schema, and where it stops. */
  method CheckRow(file: seq<byte>, pos: nat, schema: seq<DataType>, classify: Field -> DataType)
    returns (rowStart: nat, isValid: bool)
    requires ScanRow(file, pos).Some?
    ensures rowStart == ScanRow(file, pos).value.1
    ensures isValid == ValidRow(TypesOf(ScanRow(file, pos).value.0, classify), schema)
  {
    var rowTypes;
    rowStart, rowTypes := ParseRowSchema(file, pos, [], classify);
    assert rowTypes == TypesOf(ScanRow(file, pos).value.0, classify);
    isValid := IsValidRow(rowTypes, schema);
  }

  /** The fields of the row at pos join the columns. */
  method AddFields(file: seq<byte>, pos: nat, columnar: seq<seq<(int, int)>>, row: FieldArray,
                   ghost lines: seq<seq<Field>>)
    returns (r: seq<seq<(int, int)>>)
    requires ScanRow(file, pos).Some? && |ScanRow(file, pos).value.0| == |columnar|
    requires row.Valid() && row.Fields == []
    requires (forall k :: 0 <= k < |lines| ==> |lines[k]| == |columnar|) && columnar == ColumnsOf(lines, |columnar|)
    modifies row.Repr
    ensures row.Valid() && row.Fields == [] && fresh(row.Repr - old(row.Repr))
    ensures r == ColumnsOf(lines + [ScanRow(file, pos).value.0], |columnar|)
  {
    var rowEnd := ParseRowFields(file, pos, row);
    assert row.Fields == AllAsInts(ScanRow(file, pos).value.0);
    r := PushLine(columnar, row, ScanRow(file, pos).value.0, lines);
    row.Clear();
  }

  /** One round of make_columnar's inner loop: the row at pos joins the columns if it fits
      the schema. */
  method AddLine(file: seq<byte>, pos: nat, schema: seq<DataType>, columnar: seq<seq<(int, int)>>, row: FieldArray,
                 classify: Field -> DataType, ghost done: seq<seq<Field>>)
    returns (r: seq<seq<(int, int)>>, next: nat)
    requires ScanRow(file, pos).Some? && row.Valid() && row.Fields == []
    requires columnar == ColumnsOf(ValidLines(done, schema, classify), |schema|)
    modifies row.Repr
    ensures row.Valid() && row.Fields == [] && fresh(row.Repr - old(row.Repr))
    ensures next == ScanRow(file, pos).value.1 + 1
    ensures r == ColumnsOf(ValidLines(done + [ScanRow(file, pos).value.0], schema, classify), |schema|)
  {
    ValidMore(done, ScanRow(file, pos).value.0, schema, classify);
    ValidStay(done, schema, classify);
    var rowStart, isValid := CheckRow(file, pos, schema, classify);
    r := columnar;
    if isValid {
      r := AddFields(file, pos, columnar, row, ValidLines(done, schema, classify));
    }
    next := rowStart + 1;
  }

  /** With the rows done, those from pos on make up all of them. */
  ghost predicate LinesLeft(file: seq<byte>, pos: nat, done: seq<seq<Field>>, all: (seq<seq<Field>>, nat)) {
    && Lines(file, pos).Some?
    && Lines(file, pos).value.1 == all.1 && done + Lines(file, pos).value.0 == all.0
  }

  /** The next row moves over to those that are done. */
  lemma LineTaken(file: seq<byte>, pos: nat, done: seq<seq<Field>>, all: (seq<seq<Field>>, nat))
    requires LinesLeft(file, pos, done, all) && !IsEnd(file[pos])
    ensures ScanRow(file, pos).Some?
    ensures LinesLeft(file, ScanRow(file, pos).value.1 + 1, done + [ScanRow(file, pos).value.0], all)
  {
    NextLine(file, pos);
    var line := ScanRow(file, pos).value;
    MoveLineOver(done, line.0, Lines(file, line.1 + 1).value.0);
  }

  /** make_columnar's inner loop, which does not look at where the portion ends. */
  method AddLines(file: seq<byte>, start: nat, schema: seq<DataType>, columnar: seq<seq<(int, int)>>,
                  classify: Field -> DataType)
    returns (r: seq<seq<(int, int)>>, pos: nat)
    requires Lines(file, start).Some? && columnar == ColumnsOf([], |schema|)
    ensures pos == Lines(file, start).value.1
    ensures r == ColumnsOf(ValidLines(Lines(file, start).value.0, schema, classify), |schema|)
  {
    r, pos := columnar, start;
    var row := new FieldArray();
    ghost var done: seq<seq<Field>> := [];
    ghost var all := Lines(file, start).value;
    while !IsEnd(file[pos])
      invariant LinesLeft(file, pos, done, all)
      invariant row.Valid() && fresh(row.Repr) && row.Fields == []
      invariant r == ColumnsOf(ValidLines(done, schema, classify), |schema|)
      decreases |file| - pos
    {
      LineTaken(file, pos, done, all);
      ghost var line := ScanRow(file, pos).value.0;
      r, pos := AddLine(file, pos, schema, r, row, classify, done);
      done := done + [line];
    }
    assert done == all.0;
  }

  /** Where start stands after one round of make_columnar's outer loop. */
  function Round(file: seq<byte>, start: nat, end: nat): nat
    requires start < end ==> Lines(file, start).Some?
  {
    if start < end then Lines(file, start).value.1 else start
  }

  /** Of the text cut into rows from start on, one starts at p. */
  predicate RowStartsAt(file: seq<byte>, start: nat, p: nat): (r: bool)
    ensures r ==> start <= p
    decreases |file| - start
  {
    p == start || (start < |file| && ScanRow(file, start).Some?
        && RowStartsAt(file, ScanRow(file, start).value.1 + 1, p))
  }

  /** No row of the portion is a blank line, or starts with EOF or NUL. */
  predicate NoBlankRow(file: seq<byte>, start: nat, end: nat) {
    forall p :: start <= p < end && p < |file| && RowStartsAt(file, start, p) ==> !IsEnd(file[p])
  }

  /** The inner loop stops at the first such row. */
  lemma {:induction false} LinesStop(file: seq<byte>, start: nat)
    requires Lines(file, start).Some?
    ensures var q := Lines(file, start).value.1;
      && start <= q < |file| && RowStartsAt(file, start, q) && IsEnd(file[q]) && NoBlankRow(file, start, q)
    decreases |file| - start
  {
    if !IsEnd(file[start]) {
      LinesStop(file, ScanRow(file, start).value.1 + 1);
    }
  }

  lemma StopsBehindIff(file: seq<byte>, start: nat, end: nat)
    requires start < end && Lines(file, start).Some?
    ensures Lines(file, start).value.1 >= end <==> NoBlankRow(file, start, end)
  {
    LinesStop(file, start);
  }

  /** Column c of the columns holds field number c of each of the rows kept. */
  ghost predicate HoldFields(columnar: seq<seq<(int, int)>>, lines: seq<seq<Field>>, kept: seq<nat>, width: nat) {
    && |columnar| == width
    && (forall k :: 0 <= k < |kept| ==> kept[k] < |lines| && |lines[kept[k]]| == width)
    && (forall c :: 0 <= c < width ==> |columnar[c]| == |kept|)
    && (forall c, k :: 0 <= c < width && 0 <= k < |kept| ==> columnar[c][k] == AsInts(lines[kept[k]][c]))
  }

  lemma ColumnsHoldFields(lines: seq<seq<Field>>, schema: seq<DataType>, classify: Field -> DataType)
    returns (kept: seq<nat>)
    ensures ArePlaces(kept, Fitting(lines, schema, classify))
    ensures HoldFields(ColumnsOf(ValidLines(lines, schema, classify), |schema|), lines, kept, |schema|)
  {
    kept := ValidLinesAre(lines, schema, classify);
    var valid := ValidLines(lines, schema, classify);
    forall c | 0 <= c < |schema|
      ensures ColumnsOf(valid, |schema|)[c] == ColumnOf(valid, c)
    {
    }
  }

  /** make_columnar, for a portion whose rows are scanned without leaving the text and
      none of which is blank: then it ends, with one array of fields for each column, all of
      one length, holding the fields of the rows that fit the schema, in order. */
  method MakeColumnar(file: seq<byte>, start: nat, end: nat, schema: seq<DataType>, classify: Field -> DataType)
    returns (columnar: seq<seq<(int, int)>>, ghost kept: seq<nat>)
    requires start < end ==> Lines(file, start).Some?
    requires NoBlankRow(file, start, end)
    ensures var lines := if start < end then Lines(file, start).value.0 else [];
      && columnar == ColumnsOf(ValidLines(lines, schema, classify), |schema|)
      && ArePlaces(kept, Fitting(lines, schema, classify)) && HoldFields(columnar, lines, kept, |schema|)
  {
    columnar := seq(|schema|, _ => []);
    assert columnar == ColumnsOf([], |schema|);
    var pos := start;
    if start < end {
      StopsBehindIff(file, start, end);
    }
    while pos < end
      invariant pos == start || pos >= end
      invariant pos == start ==> columnar == ColumnsOf([], |schema|)
      invariant pos != start ==> start < end
      invariant pos != start ==>
                  columnar == ColumnsOf(ValidLines(Lines(file, start).value.0, schema, classify), |schema|)
    {
      columnar, pos := AddLines(file, pos, schema, columnar, classify);
    }
    kept := ColumnsHoldFields(if start < end then Lines(file, start).value.0 else [], schema, classify);
  }

  lemma NoFurther(file: seq<byte>, start: nat)
    requires Lines(file, start).Some?
    ensures var q := Lines(file, start).value.1; Lines(file, q) == Some(([], q))
  {
  }

  /** Where start stands after n rounds of the outer loop. */
  function Rounds(file: seq<byte>, start: nat, end: nat, n: nat): (r: nat)
    requires start < end ==> Lines(file, start).Some?
    ensures r < end ==> Lines(file, r).Some?
  {
    if n == 0 then start
    else
      var before := Rounds(file, start, end, n - 1);
      if before < end then NoFurther(file, before); Round(file, before, end) else before
  }

  /** After finitely many rounds start has reached end. */
  ghost predicate Ends(file: seq<byte>, start: nat, end: nat)
    requires start < end ==> Lines(file, start).Some?
  {
    exists n: nat :: Rounds(file, start, end, n) >= end
  }

  lemma EndsAfter(file: seq<byte>, start: nat, end: nat, n: nat)
    requires start < end ==> Lines(file, start).Some?
    requires Rounds(file, start, end, n) >= end
    ensures Ends(file, start, end)
  {
  }

  /** The outer loop ends exactly if no row in front of end is a blank line, or starts with
      EOF or NUL: where one does, the loop never moves on. */
  lemma EndsExactlyIf(file: seq<byte>, start: nat, end: nat)
    requires start < end ==> Lines(file, start).Some?
    ensures Ends(file, start, end) <==> NoBlankRow(file, start, end)
  {
    if start >= end {
      EndsAfter(file, start, end, 0);
    } else {
      StopsBehindIff(file, start, end);
      if NoBlankRow(file, start, end) {
        assert Rounds(file, start, end, 1) == Round(file, Rounds(file, start, end, 0), end);
        EndsAfter(file, start, end, 1);
      } else {
        forall n: nat
          ensures Rounds(file, start, end, n) < end
        {
          Stuck(file, start, end, n);
        }
      }
    }
  }

  /** No newline stands inside a row. */
  lemma {:induction false} RowHasNoNewline(file: seq<byte>, start: nat)
    requires ScanRow(file, start).Some?
    ensures forall p :: start <= p < ScanRow(file, start).value.1 ==> file[p] != NEWLINE
    decreases |file| - start
  {
    if IsEnd(file[start]) {
    } else if file[start] == LESS {
      RowHasNoNewline(file, FieldEnd(file, start + 1).value + 1);
    } else {
      RowHasNoNewline(file, start + 1);
    }
  }

  /** Behind a newline a row starts, and it is not a blank one before the scan stops. */
  lemma {:induction false} NoBlankBehindNewline(file: seq<byte>, start: nat, p: nat)
    requires Lines(file, start).Some? && start <= p && p + 1 < Lines(file, start).value.1 && file[p] == NEWLINE
    ensures !IsEnd(file[p + 1])
    decreases |file| - start
  {
    NextLine(file, start);
    RowHasNoNewline(file, start);
    var next := ScanRow(file, start).value.1 + 1;
    if p >= next {
      NoBlankBehindNewline(file, next, p);
    }
  }

  /** The scan stops where it begins, or behind the end of a row. */
  lemma {:induction false} StopsBehindARow(file: seq<byte>, start: nat)
    requires Lines(file, start).Some?
    ensures var q := Lines(file, start).value.1; q == start || (start < q && IsEnd(file[q - 1]))
    decreases |file| - start
  {
    if !IsEnd(file[start]) {
      StopsBehindARow(file, ScanRow(file, start).value.1 + 1);
    }
  }

  /** For a portion with neither NUL nor EOF in it: the outer loop ends exactly if the
      portion has no blank line, neither at its start nor after another newline. */
  lemma EndsIfNoBlankLine(file: seq<byte>, start: nat, end: nat)
    requires start < end <= |file| && Lines(file, start).Some?
    requires forall p :: start <= p < end ==> file[p] != 0 && file[p] != 255
    ensures Ends(file, start, end) <==>
      file[start] != NEWLINE && forall p :: start <= p < end - 1 ==> file[p] != NEWLINE || file[p + 1] != NEWLINE
  {
    EndsExactlyIf(file, start, end);
    StopsBehindIff(file, start, end);
    LinesStop(file, start);
    StopsBehindARow(file, start);
    var q := Lines(file, start).value.1;
    if q >= end {
      forall p | start <= p < end - 1 && file[p] == NEWLINE
        ensures file[p + 1] != NEWLINE
      {
        NoBlankBehindNewline(file, start, p);
      }
    } else if q != start {
      assert file[q - 1] == NEWLINE && file[q - 1 + 1] == NEWLINE;
    }
  }

  /** A text that begins with a blank line: the loop never ends. */
  lemma BlankLineNeverEnds()
    ensures var file := [NEWLINE, LESS, GREATER, NEWLINE, 0]; Lines(file, 0).Some? && !Ends(file, 0, 4)
  {
    var file := [NEWLINE, LESS, GREATER, NEWLINE, 0];
    assert Lines(file, 0) == Some(([], 0));
    EndsExactlyIf(file, 0, 4);
    assert RowStartsAt(file, 0, 0);
  }

  lemma {:induction false} Stuck(file: seq<byte>, start: nat, end: nat, n: nat)
    requires start < end && Lines(file, start).Some? && Lines(file, start).value.1 < end
    ensures Rounds(file, start, end, n) == if n == 0 then start else Lines(file, start).value.1
  {
    if n > 0 {
      Stuck(file, start, end, n - 1);
      NoFurther(file, start);
    }
  }

  /** Every entry of every column spans a field of the row it comes from. */
  lemma {:induction false} EntriesSpan(file: seq<byte>, start: nat, k: nat)
    requires Lines(file, start).Some? && k < |Lines(file, start).value.0|
    ensures forall c :: 0 <= c < |Lines(file, start).value.0[k]| ==> Spans(file, Lines(file, start).value.0[k][c])
    decreases |file| - start
  {
    NextLine(file, start);
    if k == 0 {
      FieldsSpan(file, start);
    } else {
      EntriesSpan(file, ScanRow(file, start).value.1 + 1, k - 1);
    }
  }

  /** Each row kept is a row of the text, and fits the schema. */
  lemma {:induction false} ValidIsLine(lines: seq<seq<Field>>, schema: seq<DataType>, classify: Field -> DataType,
                                       k: nat)
    requires k < |ValidLines(lines, schema, classify)|
    ensures ValidRow(TypesOf(ValidLines(lines, schema, classify)[k], classify), schema)
    ensures exists j :: 0 <= j < |lines| && lines[j] == ValidLines(lines, schema, classify)[k]
  {
    var n := |lines| - 1;
    if k < |ValidLines(lines[..n], schema, classify)| {
      ValidIsLine(lines[..n], schema, classify, k);
      var j :| 0 <= j < n && lines[..n][j] == ValidLines(lines[..n], schema, classify)[k];
      assert lines[j] == ValidLines(lines, schema, classify)[k];
    } else {
      assert lines[n] == ValidLines(lines, schema, classify)[k];
    }
  }

  /** What make_columnar returns for a text of at most 2^31 bytes: all columns are as long
      as there are valid rows, and entry k of column c is the '<' and the first '>' behind
      it of a field, of a type that the schema allows there. */
  lemma ColumnarEntry(file: seq<byte>, start: nat, schema: seq<DataType>, classify: Field -> DataType, c: nat, k: nat)
    requires Lines(file, start).Some? && |file| <= 0x8000_0000 && c < |schema|
    requires k < |ValidLines(Lines(file, start).value.0, schema, classify)|
    ensures var valid := ValidLines(Lines(file, start).value.0, schema, classify);
      var f := valid[k][c];
      && |ColumnsOf(valid, |schema|)[c]| == |valid| && ColumnsOf(valid, |schema|)[c][k] == f
      && Spans(file, f) && Takes(schema[c], classify(f))
  {
    var lines := Lines(file, start).value.0;
    var valid := ValidLines(lines, schema, classify);
    ValidIsLine(lines, schema, classify, k);
    var j :| 0 <= j < |lines| && lines[j] == valid[k];
    EntriesSpan(file, start, j);
    assert TypesOf(valid[k], classify)[c] == classify(valid[k][c]);
    PositionFits(valid[k][c]);
  }

  lemma PositionFits(f: Field)
    requires f.0 < 0x8000_0000 && f.1 < 0x8000_0000
    ensures AsInts(f) == f
  {
  }

  // ----- the end that make_columnar is given -----

  /** The rows that start in front of end, which is what make_columnar is said to take, and
      where they end. */
  function Portion(file: seq<byte>, start: nat, end: nat): Option<(seq<seq<Field>>, nat)>
    decreases |file| - start
  {
    if start >= |file| then None
    else if start >= end || IsEnd(file[start]) then Some(([], start))
    else
      match ScanRow(file, start)
      case None => None
      case Some(row) =>
        match Portion(file, row.1 + 1, end)
        case None => None
        case Some(rest) => Some(([row.0] + rest.0, rest.1))
  }

  /** make_columnar takes the rows of the portion and whatever follows them up to the next
      blank line, EOF or NUL: just the portion exactly if one of these follows it. */
  lemma {:induction false} TakesThePortionExactlyIf(file: seq<byte>, start: nat, end: nat)
    requires Lines(file, start).Some?
    ensures Portion(file, start, end).Some? && Portion(file, start, end).value.1 < |file|
    ensures Portion(file, start, end).value.0 <= Lines(file, start).value.0
    ensures Lines(file, start).value.0 == Portion(file, start, end).value.0 <==>
              IsEnd(file[Portion(file, start, end).value.1])
    decreases |file| - start
  {
    if start < end && !IsEnd(file[start]) {
      NextLine(file, start);
      var row := ScanRow(file, start).value;
      TakesThePortionExactlyIf(file, row.1 + 1, end);
      SameBehind(row.0, Portion(file, row.1 + 1, end).value.0, Lines(file, row.1 + 1).value.0);
    }
  }

  lemma SameBehind(line: seq<Field>, a: seq<seq<Field>>, b: seq<seq<Field>>)
    ensures [line] + a == [line] + b <==> a == b
    ensures a <= b ==> [line] + a <= [line] + b
  {
    assert ([line] + a)[1..] == a && ([line] + b)[1..] == b;
  }

  /** Two rows, of which the portion has only the first: both are taken. */
  lemma TakesRowsBehindTheEnd()
    ensures var file := [LESS, GREATER, NEWLINE, LESS, GREATER, NEWLINE, 0];
      && Portion(file, 0, 3) == Some(([[(0, 1)]], 3))
      && Lines(file, 0) == Some(([[(0, 1)], [(3, 4)]], 6))
  {
    var file := [LESS, GREATER, NEWLINE, LESS, GREATER, NEWLINE, 0];
    assert ScanRow(file, 2) == Some(([], 2)) && ScanRow(file, 5) == Some(([], 5));
    assert FieldEnd(file, 1) == Some(1) && FieldEnd(file, 4) == Some(4);
    var noField: seq<Field>, noRow: seq<seq<Field>> := [], [];
    assert [(0, 1)] + noField == [(0, 1)] && [(3, 4)] + noField == [(3, 4)];
    assert [[(0, 1)]] + noRow == [[(0, 1)]] && [[(3, 4)]] + noRow == [[(3, 4)]];
    assert ScanRow(file, 0) == Some(([(0, 1)], 2)) && ScanRow(file, 3) == Some(([(3, 4)], 5));
    assert Lines(file, 6) == Some(([], 6)) && Lines(file, 3) == Some(([[(3, 4)]], 6));
    assert Portion(file, 3, 3) == Some(([], 3));
    assert [[(0, 1)]] + [[(3, 4)]] == [[(0, 1)], [(3, 4)]];
    NextLine(file, 0);
  }
}
