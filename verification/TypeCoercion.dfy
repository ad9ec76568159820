/**
 Canonical fast-field schemas: types of one column are merged over any number of splits, and every split's
 columns are coerced to the merged types.
*/
module TypeCoercion {
  import opened Prelude
  import opened Expressions
  import opened IndexQueries

  /**
   Arrow types; a list type stands for its item type, whatever the name of the item field. Microseconds without a
   zone have a name of their own.
  */
  datatype DataType =
    | Int8 | Int16 | Int32 | Int64 | UInt8 | UInt16 | UInt32 | UInt64 | Float16 | Float32 | Float64
    | Boolean | Utf8 | Utf8View | Binary
    | TimestampMicros | OtherTimestamp(unit: TimeUnit, zone: Option<string>)
    | Dictionary(key: DataType, value: DataType)
    | List(item: DataType)
    | OtherType(id: nat)

  /** `logical` is the logical-name metadata, if the field carries it. */
  datatype Field = Field(name: string, dataType: DataType, nullable: bool, logical: Option<string>)

  type Schema = seq<Field>

  // ---------------------------------------------------------------------------
  // Merging types
  // ---------------------------------------------------------------------------

  function PromotableScalarType(t: DataType): Option<DataType> {
    match t
    case UInt64 | Int64 | Float64 | Boolean | Utf8 | Utf8View | Binary | TimestampMicros => Some(t)
    case Dictionary(_, Utf8) => Some(DataType.Utf8)
    case List(item) => Some(item)
    case _ => None
  }

  predicate StringFallbackSupported(t: DataType) {
    match t
    case UInt64 | Int64 | Float64 | Boolean | Utf8 | Utf8View | TimestampMicros => true
    case _ => false
  }

  function MergeFieldTypes(left: DataType, right: DataType): Option<DataType> {
    if left == right then Some(left)
    else
      var l :- PromotableScalarType(left);
      var r :- PromotableScalarType(right);
      if l == r then Some(List(l))
      else if StringFallbackSupported(l) && StringFallbackSupported(r) then Some(List(DataType.Utf8))
      else None
  }

  lemma {:induction false} MergeCommutes(a: DataType, b: DataType)
    ensures MergeFieldTypes(a, b) == MergeFieldTypes(b, a)
  {
  }

  /** A merge of different types is a list, and promotes to its item. */
  lemma {:induction false} MergedIsList(a: DataType, b: DataType)
    requires a != b && MergeFieldTypes(a, b).Some?
    ensures PromotableScalarType(a).Some? && PromotableScalarType(b).Some?
    ensures MergeFieldTypes(a, b) == Some(List(
      if PromotableScalarType(a) == PromotableScalarType(b) then PromotableScalarType(a).value else DataType.Utf8))
  {
  }

  /** Merging with a list only looks at the promoted types. */
  lemma {:induction false} MergeWithList(a: DataType, p: DataType)
    requires PromotableScalarType(a).Some?
    ensures MergeFieldTypes(a, List(p)) == MergePromoted(PromotableScalarType(a).value, p)
  {
  }

  function MergePromoted(l: DataType, r: DataType): Option<DataType> {
    if l == r then Some(List(l))
    else if StringFallbackSupported(l) && StringFallbackSupported(r) then Some(List(DataType.Utf8))
    else None
  }

  lemma {:induction false} MergeIsPromoted(a: DataType, b: DataType)
    requires a != b
    ensures MergeFieldTypes(a, b) ==
      if PromotableScalarType(a).None? || PromotableScalarType(b).None? then None
      else MergePromoted(PromotableScalarType(a).value, PromotableScalarType(b).value)
  {
  }

  lemma {:induction false} MergeAbsorbs(a: DataType, b: DataType)
    requires MergeFieldTypes(a, b).Some?
    ensures MergeFieldTypes(a, MergeFieldTypes(a, b).value) == MergeFieldTypes(a, b)
  {
    if a != b {
      MergedIsList(a, b);
      MergeWithList(a, MergeFieldTypes(a, b).value.item);
    }
  }

  /** Merging promoted types is associative. */
  lemma {:induction false} PromotedAssociates(l: DataType, m: DataType, r: DataType)
    ensures
      (if MergePromoted(l, m).Some? then MergePromoted(MergePromoted(l, m).value.item, r) else None) ==
      (if MergePromoted(m, r).Some? then MergePromoted(l, MergePromoted(m, r).value.item) else None)
  {
  }

  /** The left grouping of three types, two of them different, in terms of their promoted types. */
  function GroupLeft(a: Option<DataType>, b: Option<DataType>, c: Option<DataType>): Joint {
    if a.None? || b.None? || c.None? then Conflict
    else
      match MergePromoted(a.value, b.value)
      case None => Conflict
      case Some(ab) => (
        match MergePromoted(ab.item, c.value)
        case None => Conflict
        case Some(m) => Type(m)
      )
  }

  lemma {:induction false} NothingMergesWithUnpromotable(m: DataType, c: DataType)
    requires m.List? && PromotableScalarType(c).None?
    ensures MergeFieldTypes(m, c).None?
  {
  }

  /** A third type merges with a merged list as its promoted type does with the list's item. */
  lemma {:induction false} MergedThird(item: DataType, c: DataType)
    ensures MergeFieldTypes(List(item), c) ==
            if PromotableScalarType(c).None? then None else MergePromoted(item, PromotableScalarType(c).value)
  {
    if PromotableScalarType(c).None? {
      NothingMergesWithUnpromotable(List(item), c);
    } else {
      MergeCommutes(List(item), c);
      MergeWithList(c, item);
      PromotedCommutes(item, PromotableScalarType(c).value);
    }
  }

  lemma {:induction false} PromotedCommutes(l: DataType, r: DataType)
    ensures MergePromoted(l, r) == MergePromoted(r, l)
  {
  }

  lemma {:induction false} LeftGrouping(a: DataType, b: DataType, c: DataType)
    requires a != b
    ensures Join(Join(Type(a), Type(b)), Type(c)) ==
      GroupLeft(PromotableScalarType(a), PromotableScalarType(b), PromotableScalarType(c))
  {
    MergeIsPromoted(a, b);
    var ab := MergeFieldTypes(a, b);
    if ab.Some? {
      MergedThird(ab.value.item, c);
    }
  }

  lemma {:induction false} GroupingsAgree(a: Option<DataType>, b: Option<DataType>, c: Option<DataType>)
    ensures GroupLeft(a, b, c) == GroupLeft(c, b, a)
  {
    if a.Some? && b.Some? && c.Some? {
      PromotedAssociates(a.value, b.value, c.value);
    }
  }

  lemma {:induction false} DifferentTypesAssociate(a: DataType, b: DataType, c: DataType)
    requires a != b && b != c
    ensures Join(Join(Type(a), Type(b)), Type(c)) == Join(Type(a), Join(Type(b), Type(c)))
  {
    LeftGrouping(a, b, c);
    LeftGrouping(c, b, a);
    GroupingsAgree(PromotableScalarType(a), PromotableScalarType(b), PromotableScalarType(c));
    MergeCommutes(c, b);
    if MergeFieldTypes(b, c).Some? {
      MergeCommutes(a, MergeFieldTypes(b, c).value);
    }
  }

  /** The partial merge is associative for all types: both groupings give the same type or both fail. */
  lemma {:induction false} MergeAssociates(a: DataType, b: DataType, c: DataType)
    ensures Join(Join(Type(a), Type(b)), Type(c)) == Join(Type(a), Join(Type(b), Type(c)))
  {
    if a == b {
      if MergeFieldTypes(a, c).Some? {
        MergeAbsorbs(a, c);
      }
    } else if b == c {
      MergeCommutes(a, b);
      if MergeFieldTypes(a, b).Some? {
        MergeAbsorbs(b, a);
        MergeCommutes(b, MergeFieldTypes(a, b).value);
      }
    } else {
      DifferentTypesAssociate(a, b, c);
    }
  }

  // ---------------------------------------------------------------------------
  // The type of one column over many fields
  // ---------------------------------------------------------------------------

  /** Nothing seen, a type, or types that do not merge. */
  datatype Joint = Absent | Type(t: DataType) | Conflict

  function Join(a: Joint, b: Joint): Joint {
    match (a, b)
    case (Absent, _) => b
    case (_, Absent) => a
    case (Type(x), Type(y)) => (
      match MergeFieldTypes(x, y)
      case Some(m) => Type(m)
      case None => Conflict
    )
    case _ => Conflict
  }

  lemma {:induction false} JoinLaws(a: Joint, b: Joint, c: Joint)
    ensures Join(a, b) == Join(b, a)
    ensures Join(Join(a, b), c) == Join(a, Join(b, c))
    ensures Join(a, a) == a
  {
    if a.Type? && b.Type? {
      MergeCommutes(a.t, b.t);
      if c.Type? {
        MergeAssociates(a.t, b.t, c.t);
      }
    }
  }

  /** What one field says about the column of a given name. */
  function Says(name: string, field: Field): Joint {
    if field.name == name then Type(field.dataType) else Absent
  }

  function JoinFields(name: string, fields: seq<Field>): Joint {
    if fields == [] then Absent
    else Join(JoinFields(name, fields[..|fields| - 1]), Says(name, fields[|fields| - 1]))
  }

  function JoinSchemas(name: string, schemas: seq<Schema>): Joint {
    if schemas == [] then Absent
    else Join(JoinSchemas(name, schemas[..|schemas| - 1]), JoinFields(name, schemas[|schemas| - 1]))
  }

  /** A schema can be taken out of anywhere and joined last. */
  lemma {:induction false} JoinLast(name: string, schemas: seq<Schema>, i: nat)
    requires i < |schemas|
    ensures JoinSchemas(name, schemas) ==
      Join(JoinSchemas(name, schemas[..i] + schemas[i + 1..]), JoinFields(name, schemas[i]))
  {
    var n := |schemas| - 1;
    var rest := schemas[..i] + schemas[i + 1..];
    if i == n {
      assert rest == schemas[..n];
    } else {
      JoinLast(name, schemas[..n], i);
      var inner := schemas[..n][..i] + schemas[..n][i + 1..];
      assert rest[..|rest| - 1] == inner && rest[|rest| - 1] == schemas[n];
      var a, b, c := JoinSchemas(name, inner), JoinFields(name, schemas[i]), JoinFields(name, schemas[n]);
      JoinLaws(a, b, c);
      JoinLaws(a, c, b);
      JoinLaws(b, c, a);
    }
  }

  /** Inference does not depend on the order of the splits: same type, or same failure, for every column. */
  lemma {:induction false} JoinIsOrderIndependent(name: string, a: seq<Schema>, b: seq<Schema>)
    requires multiset(a) == multiset(b)
    ensures JoinSchemas(name, a) == JoinSchemas(name, b)
  {
    if a == [] {
      assert |multiset(b)| == 0;
    } else {
      var n := |a| - 1;
      assert a[n] in multiset(b);
      var i :| 0 <= i < |b| && b[i] == a[n];
      var rest := b[..i] + b[i + 1..];
      assert a == a[..n] + [a[n]];
      assert b == b[..i] + [b[i]] + b[i + 1..];
      assert multiset(a[..n]) == multiset(a) - multiset{a[n]};
      assert multiset(rest) == multiset(b) - multiset{a[n]};
      JoinIsOrderIndependent(name, a[..n], rest);
      JoinLast(name, b, i);
    }
  }

  /** Every split's own type of a column is below the merged type: merging it in again changes nothing. */
  lemma {:induction false} JoinIsUpperBound(name: string, schemas: seq<Schema>, i: nat)
    requires i < |schemas|
    ensures Join(JoinFields(name, schemas[i]), JoinSchemas(name, schemas)) == JoinSchemas(name, schemas)
  {
    JoinLast(name, schemas, i);
    var rest := JoinSchemas(name, schemas[..i] + schemas[i + 1..]);
    var own := JoinFields(name, schemas[i]);
    JoinLaws(own, own, rest);
    JoinLaws(rest, own, own);
    JoinLaws(own, rest, own);
  }

  lemma {:induction false} FieldBelowSchema(name: string, fields: seq<Field>, j: nat)
    requires j < |fields|
    ensures Join(Says(name, fields[j]), JoinFields(name, fields)) == JoinFields(name, fields)
  {
    var n := |fields| - 1;
    var before, last := JoinFields(name, fields[..n]), Says(name, fields[n]);
    if j < n {
      FieldBelowSchema(name, fields[..n], j);
      JoinLaws(Says(name, fields[j]), before, last);
    } else {
      JoinLaws(last, last, before);
      JoinLaws(before, last, last);
      JoinLaws(last, before, last);
    }
  }

  // ---------------------------------------------------------------------------
  // What fast types merge to
  // ---------------------------------------------------------------------------

  predicate HoldsBytes(t: DataType) {
    t == DataType.Binary || t == List(DataType.Binary)
  }

  /** The type of single values of a column; dictionaries are of strings. */
  function SingleType(t: DataType): DataType {
    match t
    case List(item) => item
    case Dictionary(_, value) => value
    case _ => t
  }

  ghost predicate SomeBytes(types: set<DataType>) {
    exists t :: t in types && HoldsBytes(t)
  }

  ghost predicate SomeOthers(types: set<DataType>) {
    exists t :: t in types && !HoldsBytes(t)
  }

  ghost predicate AllOf(types: set<DataType>, single: DataType) {
    forall t :: t in types ==> SingleType(t) == single
  }

  /**
   The type of a column that has these types in its splits: the one type they have; otherwise the list of the type that
   all their single values have, or else a list of strings.
  */
  ghost predicate IsCommonType(m: DataType, types: set<DataType>) {
    types == {m} ||
    exists t, u :: t in types && u in types && t != u &&
      m == List(if AllOf(types, SingleType(t)) then SingleType(t) else DataType.Utf8)
  }

  /** What fast types say together: nothing without any, and a conflict exactly when bytes meet something else. */
  ghost predicate IsJointOf(joint: Joint, types: set<DataType>) {
    match joint
    case Absent => types == {}
    case Conflict => SomeBytes(types) && SomeOthers(types)
    case Type(m) => !(SomeBytes(types) && SomeOthers(types)) && IsCommonType(m, types)
  }

  ghost predicate AllFast(types: set<DataType>) {
    forall t :: t in types ==> IsFastType(t)
  }

  /** Types of columns whose single values have a type that merging looks at. */
  predicate IsPromotable(t: DataType) {
    t.List? || (t.Dictionary? && t.value.Utf8?) || t.Binary? || IsWritable(t)
  }

  /** Types of single values that can be written as texts. */
  predicate IsWritable(t: DataType) {
    t.UInt64? || t.Int64? || t.Float64? || t.Boolean? || t.Utf8? || t.Utf8View? || t.TimestampMicros?
  }

  lemma {:induction false} PromotedMeaning(t: DataType)
    ensures PromotableScalarType(t) == if IsPromotable(t) then Some(SingleType(t)) else None
    ensures StringFallbackSupported(t) <==> IsWritable(t)
  {
  }

  /** Of any two types: different ones merge into lists, of the single type they share or of strings they can be. */
  lemma {:induction false} MergeMeaning(a: DataType, b: DataType)
    ensures MergeFieldTypes(a, b).Some? <==>
            a == b ||
            (IsPromotable(a) && IsPromotable(b) &&
             (SingleType(a) == SingleType(b) || (IsWritable(SingleType(a)) && IsWritable(SingleType(b)))))
    ensures MergeFieldTypes(a, b).Some? ==>
      MergeFieldTypes(a, b).value ==
      if a == b then a else if SingleType(a) == SingleType(b) then List(SingleType(a)) else List(DataType.Utf8)
  {
    PromotedMeaning(a);
    PromotedMeaning(b);
    if a != b {
      MergeIsPromoted(a, b);
      PromotedMeaning(SingleType(a));
      PromotedMeaning(SingleType(b));
    }
  }

  /** Two fast types fail to merge exactly when one holds bytes and the other does not. */
  lemma {:induction false} FastTypesMergeWhen(a: DataType, b: DataType)
    requires IsFastType(a) && IsFastType(b)
    ensures MergeFieldTypes(a, b).None? <==> HoldsBytes(a) != HoldsBytes(b)
    ensures MergeFieldTypes(a, b).Some? ==>
      MergeFieldTypes(a, b).value ==
      if a == b then a else if SingleType(a) == SingleType(b) then List(SingleType(a)) else List(DataType.Utf8)
  {
  }

  lemma {:induction false} CommonTypeFacts(m: DataType, types: set<DataType>)
    requires AllFast(types) && IsJointOf(Type(m), types)
    ensures IsFastType(m) && types != {} && (types == {m} || m.List?)
    ensures HoldsBytes(m) <==> SomeBytes(types)
    ensures AllOf(types, SingleType(m)) || (m == List(DataType.Utf8) && IsMixed(types))
  {
  }

  ghost predicate IsMixed(types: set<DataType>) {
    exists t, u :: t in types && u in types && SingleType(t) != SingleType(u)
  }

  lemma {:induction false} CommonTypeOfBoth(m: DataType, n: DataType, s: set<DataType>, t: set<DataType>)
    requires AllFast(s) && AllFast(t) && IsJointOf(Type(m), s) && IsJointOf(Type(n), t)
    requires MergeFieldTypes(m, n).Some?
    ensures IsCommonType(MergeFieldTypes(m, n).value, s + t)
  {
    CommonTypeFacts(m, s);
    CommonTypeFacts(n, t);
    FastTypesMergeWhen(m, n);
    if s == {m} && t == {n} {
      assert m in s + t && n in s + t && (m == n ==> s + t == {m});
    } else {
      var x, y :| x in s + t && y in s + t && x != y;
      assert AllOf(s, SingleType(m)) && AllOf(t, SingleType(n)) && SingleType(m) == SingleType(n) ==>
        AllOf(s + t, SingleType(x)) && SingleType(x) == SingleType(m);
    }
  }

  lemma {:induction false} JoinOfTypes(a: Joint, b: Joint, s: set<DataType>, t: set<DataType>)
    requires AllFast(s) && AllFast(t) && IsJointOf(a, s) && IsJointOf(b, t)
    ensures IsJointOf(Join(a, b), s + t)
  {
    if a.Absent? {
      assert s + t == t;
    } else if b.Absent? {
      assert s + t == s;
    } else if a.Type? && b.Type? {
      CommonTypeFacts(a.t, s);
      CommonTypeFacts(b.t, t);
      FastTypesMergeWhen(a.t, b.t);
      if Join(a, b).Type? {
        CommonTypeOfBoth(a.t, b.t, s, t);
      }
    }
  }

  ghost function TypesIn(name: string, fields: Schema): set<DataType> {
    set j | 0 <= j < |fields| && fields[j].name == name :: fields[j].dataType
  }

  /** The types that a column has in any of the splits. */
  ghost function TypesOf(name: string, schemas: seq<Schema>): set<DataType> {
    set i, j | 0 <= i < |schemas| && 0 <= j < |schemas[i]| && schemas[i][j].name == name :: schemas[i][j].dataType
  }

  lemma {:induction false} FieldsJoin(name: string, fields: Schema)
    requires IsDerived(fields) && !IsInternalName(name)
    ensures AllFast(TypesIn(name, fields)) && IsJointOf(JoinFields(name, fields), TypesIn(name, fields))
  {
    if fields == [] {
    } else {
      var n := |fields| - 1;
      FieldsJoin(name, fields[..n]);
      var last := if fields[n].name == name then {fields[n].dataType} else {};
      assert TypesIn(name, fields) == TypesIn(name, fields[..n]) + last;
      JoinOfTypes(JoinFields(name, fields[..n]), Says(name, fields[n]), TypesIn(name, fields[..n]), last);
    }
  }

  lemma {:induction false} TypesOfLast(name: string, schemas: seq<Schema>)
    requires schemas != []
    ensures TypesOf(name, schemas) ==
            TypesOf(name, schemas[..|schemas| - 1]) + TypesIn(name, schemas[|schemas| - 1])
  {
    var n := |schemas| - 1;
    assert forall i, j :: 0 <= i < n && 0 <= j < |schemas[i]| ==> schemas[i][j] == schemas[..n][i][j];
  }

  /** The joint type of a column over derived schemas is that of the types it has in them. */
  lemma {:induction false} SchemasJoin(name: string, schemas: seq<Schema>)
    requires forall i :: 0 <= i < |schemas| ==> IsDerived(schemas[i])
    requires !IsInternalName(name)
    ensures AllFast(TypesOf(name, schemas)) && IsJointOf(JoinSchemas(name, schemas), TypesOf(name, schemas))
  {
    if schemas == [] {
    } else {
      var n := |schemas| - 1;
      var before, last := TypesOf(name, schemas[..n]), TypesIn(name, schemas[n]);
      SchemasJoin(name, schemas[..n]);
      FieldsJoin(name, schemas[n]);
      TypesOfLast(name, schemas);
      JoinOfTypes(JoinSchemas(name, schemas[..n]), JoinFields(name, schemas[n]), before, last);
    }
  }

  /** Some column holds bytes in one field and something else in another. */
  ghost predicate BytesMeetOthers(schemas: seq<Schema>) {
    exists name :: name != "_doc_id" && name != "_segment_ord" && SomeBytes(TypesOf(name, schemas)) &&
      SomeOthers(TypesOf(name, schemas))
  }

  // ---------------------------------------------------------------------------
  // Inference
  // ---------------------------------------------------------------------------

  predicate IsInternalName(name: string) {
    name == DOC_ID || name == SEGMENT_ORD
  }

  /** The type of the first field of a given name. */
  function Lookup(fields: seq<Field>, name: string): Joint {
    if fields == [] then Absent
    else if fields[0].name == name then Type(fields[0].dataType)
    else Lookup(fields[1..], name)
  }

  ghost predicate DistinctNames(fields: seq<Field>) {
    forall i, j :: 0 <= i < j < |fields| ==> fields[i].name != fields[j].name
  }

  const DOC_ID_FIELD := Field(DOC_ID, UInt32, false, None)
  const SEGMENT_ORD_FIELD := Field(SEGMENT_ORD, UInt32, false, None)

  /** The canonical schema: the internal columns, then each column of any split once, under its merged type. */
  ghost predicate IsCanonical(fields: seq<Field>, column: string -> Joint) {
    && |fields| >= 2 && fields[0] == Field("_doc_id", UInt32, false, None)
    && fields[1] == Field("_segment_ord", UInt32, false, None)
    && DistinctNames(fields)
    && (forall name :: !IsInternalName(name) ==> Lookup(fields, name) == column(name))
  }

  method FindField(fields: seq<Field>, name: string) returns (position: Option<nat>)
    ensures position.None? ==>
      Lookup(fields, name) == Absent && forall i :: 0 <= i < |fields| ==> fields[i].name != name
    ensures position.Some? ==>
      position.value < |fields| && fields[position.value].name == name &&
      Lookup(fields, name) == Type(fields[position.value].dataType)
  {
    for n := 0 to |fields|
      invariant Lookup(fields, name) == Lookup(fields[n..], name)
      invariant forall i :: 0 <= i < n ==> fields[i].name != name
    {
      if fields[n].name == name {
        return Some(n);
      }
    }
    return None;
  }

  lemma {:induction false} LookupAfterPush(fields: seq<Field>, field: Field, name: string)
    ensures Lookup(fields + [field], name) ==
      if Lookup(fields, name).Absent? then Says(name, field) else Lookup(fields, name)
  {
    if fields != [] {
      assert (fields + [field])[1..] == fields[1..] + [field];
      LookupAfterPush(fields[1..], field, name);
    } else {
      assert (fields + [field])[0] == field && (fields + [field])[1..] == [];
    }
  }

  lemma {:induction false} LookupAfterUpdate(fields: seq<Field>, i: nat, field: Field, name: string)
    requires i < |fields| && DistinctNames(fields) && field.name == fields[i].name
    ensures Lookup(fields[i := field], name) ==
            if field.name == name then Type(field.dataType) else Lookup(fields, name)
  {
    if i > 0 {
      assert fields[i := field][1..] == fields[1..][i - 1 := field];
      LookupAfterUpdate(fields[1..], i - 1, field, name);
    } else {
      assert fields[0 := field][1..] == fields[1..];
    }
  }

  /** What the first n schemas and the first m fields of the next one say together. */
  ghost function JoinUpTo(name: string, schemas: seq<Schema>, n: nat, m: nat): Joint
    requires n <= |schemas| && (n < |schemas| ==> m <= |schemas[n]|) && (n == |schemas| ==> m == 0)
  {
    Join(JoinSchemas(name, schemas[..n]), if n < |schemas| then JoinFields(name, schemas[n][..m]) else Absent)
  }

  lemma {:induction false} JoinUpToNextField(name: string, schemas: seq<Schema>, n: nat, m: nat)
    requires n < |schemas| && m < |schemas[n]|
    ensures JoinUpTo(name, schemas, n, m + 1) == Join(JoinUpTo(name, schemas, n, m), Says(name, schemas[n][m]))
  {
    assert schemas[n][..m + 1][..m] == schemas[n][..m];
    JoinLaws(JoinSchemas(name, schemas[..n]), JoinFields(name, schemas[n][..m]), Says(name, schemas[n][m]));
  }

  lemma {:induction false} JoinUpToNextSchema(name: string, schemas: seq<Schema>, n: nat)
    requires n < |schemas|
    ensures JoinUpTo(name, schemas, n + 1, 0) == JoinUpTo(name, schemas, n, |schemas[n]|)
  {
    assert schemas[..n + 1][..n] == schemas[..n];
    assert schemas[n][..|schemas[n]|] == schemas[n];
    if n + 1 < |schemas| {
      assert schemas[n + 1][..0] == [];
    }
  }

  /** A conflict is never resolved by what comes later. */
  lemma {:induction false} ConflictStays(name: string, schemas: seq<Schema>, n: nat, m: nat)
    requires n < |schemas| && m <= |schemas[n]|
    requires JoinUpTo(name, schemas, n, m) == Conflict
    ensures JoinSchemas(name, schemas) == Conflict
    decreases |schemas| - n, |schemas[n]| - m
  {
    if m < |schemas[n]| {
      JoinUpToNextField(name, schemas, n, m);
      ConflictStays(name, schemas, n, m + 1);
    } else {
      JoinUpToNextSchema(name, schemas, n);
      if n + 1 < |schemas| {
        ConflictStays(name, schemas, n + 1, 0);
      } else {
        assert schemas[..n + 1] == schemas;
      }
    }
  }

  predicate IsNullable(field: Field) {
    field.nullable && field.logical.None?
  }

  /** All but the internal columns are nullable, and known by their names only. */
  ghost predicate AllNullable(fields: seq<Field>) {
    forall i :: 2 <= i < |fields| ==> IsNullable(fields[i])
  }

  /** Merges one field into the schema under construction. */
  method AddField(fields: seq<Field>, field: Field, ghost column: string -> Joint)
    returns (r: Result<seq<Field>, string>)
    requires IsCanonical(fields, column)
    ensures r.Err? ==> !IsInternalName(field.name) && Join(column(field.name), Says(field.name, field)) == Conflict
    ensures r.Ok? ==> IsCanonical(r.value, name => Join(column(name), Says(name, field)))
    ensures r.Ok? && AllNullable(fields) && (IsInternalName(field.name) || IsNullable(field)) ==>
      AllNullable(r.value)
  {
    if IsInternalName(field.name) {
      forall name | !IsInternalName(name)
        ensures Join(column(name), Says(name, field)) == column(name)
      {
      }
      return Ok(fields);
    }
    var position := FindField(fields, field.name);
    if position.None? {
      forall name | !IsInternalName(name)
        ensures Lookup(fields + [field], name) == Join(column(name), Says(name, field))
      {
        LookupAfterPush(fields, field, name);
      }
      return Ok(fields + [field]);
    }
    var i := position.value;
    var merged := MergeFieldTypes(fields[i].dataType, field.dataType);
    if merged.None? {
      return Err(field.name);
    }
    var replacement := Field(field.name, merged.value, true, None);
    forall name | !IsInternalName(name)
      ensures Lookup(fields[i := replacement], name) == Join(column(name), Says(name, field))
    {
      LookupAfterUpdate(fields, i, replacement, name);
    }
    return Ok(fields[i := replacement]);
  }

  ghost predicate AreDerived(schemas: seq<Schema>) {
    forall i :: 0 <= i < |schemas| ==> IsDerived(schemas[i])
  }

  /** Every column of the splits has its common type in the canonical schema, and no other column is in it. */
  ghost predicate HasCommonTypes(canonical: seq<Field>, schemas: seq<Schema>) {
    forall name :: name != "_doc_id" && name != "_segment_ord" ==>
      IsJointOf(Lookup(canonical, name), TypesOf(name, schemas))
  }

  lemma {:induction false} DerivedConflicts(schemas: seq<Schema>)
    requires AreDerived(schemas)
    ensures (exists name :: !IsInternalName(name) && JoinSchemas(name, schemas) == Conflict) <==>
            BytesMeetOthers(schemas)
    ensures forall name :: name != "_doc_id" && name != "_segment_ord" ==>
      IsJointOf(JoinSchemas(name, schemas), TypesOf(name, schemas))
  {
    forall name | !IsInternalName(name)
      ensures IsJointOf(JoinSchemas(name, schemas), TypesOf(name, schemas))
    {
      SchemasJoin(name, schemas);
    }
  }

  method InferCanonicalFastFieldSchema(schemas: seq<Schema>) returns (r: Result<seq<Field>, string>)
    ensures r.Ok? <==>
      schemas != [] && forall name :: !IsInternalName(name) ==> JoinSchemas(name, schemas) != Conflict
    ensures r.Ok? ==> IsCanonical(r.value, name => JoinSchemas(name, schemas))
    ensures AreDerived(schemas) ==> (r.Err? <==> schemas == [] || BytesMeetOthers(schemas))
    ensures AreDerived(schemas) && r.Ok? ==> HasCommonTypes(r.value, schemas) && AllNullable(r.value)
  {
    if AreDerived(schemas) {
      DerivedConflicts(schemas);
    }
    if schemas == [] {
      return Err("at least one split schema is required");
    }
    var fields := [DOC_ID_FIELD, SEGMENT_ORD_FIELD];
    forall name | !IsInternalName(name)
      ensures Lookup(fields, name) == JoinUpTo(name, schemas, 0, 0)
    {
      assert fields[1..][1..] == [] && Lookup(fields[1..][1..], name) == Absent;
      assert schemas[..0] == [] && schemas[0][..0] == [];
      assert JoinSchemas(name, schemas[..0]) == Absent && JoinFields(name, schemas[0][..0]) == Absent;
    }
    for n := 0 to |schemas|
      invariant IsCanonical(fields, name => JoinUpTo(name, schemas, n, 0))
      invariant AreDerived(schemas) ==> AllNullable(fields)
    {
      for m := 0 to |schemas[n]|
        invariant IsCanonical(fields, name => JoinUpTo(name, schemas, n, m))
        invariant AreDerived(schemas) ==> AllNullable(fields)
      {
        var field := schemas[n][m];
        var added := AddField(fields, field, name => JoinUpTo(name, schemas, n, m));
        JoinUpToNextField(field.name, schemas, n, m);
        if added.Err? {
          ConflictStays(field.name, schemas, n, m + 1);
          return Err(added.error);
        }
        forall name | !IsInternalName(name)
          ensures Lookup(added.value, name) == JoinUpTo(name, schemas, n, m + 1)
        {
          JoinUpToNextField(name, schemas, n, m);
        }
        fields := added.value;
      }
      forall name | !IsInternalName(name)
        ensures Lookup(fields, name) == JoinUpTo(name, schemas, n + 1, 0)
      {
        JoinUpToNextSchema(name, schemas, n);
      }
    }
    forall name | !IsInternalName(name)
      ensures Lookup(fields, name) == JoinSchemas(name, schemas)
      ensures JoinSchemas(name, schemas) != Conflict
    {
      assert schemas[..|schemas|] == schemas;
      LookupNeverConflicts(fields, name);
    }
    return Ok(fields);
  }

  lemma {:induction false} LookupNeverConflicts(fields: seq<Field>, name: string)
    ensures Lookup(fields, name) != Conflict
  {
    if fields == [] {
    } else {
      LookupNeverConflicts(fields[1..], name);
    }
  }

  // ---------------------------------------------------------------------------
  // Coercions
  // ---------------------------------------------------------------------------

  datatype Coercion =
    | Exact
    | CastTo(target: DataType)
    | EpochMillisToTimestampMicros
    | TimestampMicrosToMillis
    | TimestampMicrosToMillisList
    | TryCastUtf8ToNumeric(target: DataType)
    | TryCastUtf8ToNumericList(itemType: DataType)
    | TryCastUtf8ListToNumericList(itemType: DataType)
    | ScalarToList(itemType: DataType, castScalarTo: Option<DataType>)

  predicate IsUtf8Like(t: DataType) {
    t.Utf8? || t.Utf8View?
  }

  predicate IsNumeric(t: DataType) {
    match t
    case Int8 | Int16 | Int32 | Int64 | UInt8 | UInt16 | UInt32 | UInt64 | Float16 | Float32 | Float64 => true
    case _ => false
  }

  predicate IsTimestamp(t: DataType) {
    t.TimestampMicros? || t.OtherTimestamp?
  }

  predicate Utf8ToNumericSupported(source: DataType, target: DataType) {
    IsUtf8Like(source) && (target.Int64? || target.UInt64? || target.Float64?)
  }

  predicate ScalarCastSupported(source: DataType, target: DataType) {
    || source == target
    || (source.Dictionary? && source.value.Utf8? && IsUtf8Like(target))
    || (IsUtf8Like(target) && (IsUtf8Like(source) || IsNumeric(source) || source.Boolean? || IsTimestamp(source)))
    || (IsNumeric(source) && IsNumeric(target))
    || (IsTimestamp(source) && IsTimestamp(target))
  }

  /** None when the coercion is not supported. */
  function PlanCoercion(source: DataType, target: DataType): Option<Coercion> {
    if source == target then Some(Exact)
    else if target.List? then
      var item := target.item;
      if source.List? then
        if Utf8ToNumericSupported(source.item, item) then Some(TryCastUtf8ListToNumericList(item))
        else if ScalarCastSupported(source.item, item) then Some(CastTo(target))
        else None
      else if source.TimestampMicros? && item.Int64? then Some(TimestampMicrosToMillisList)
      else if source == item then Some(ScalarToList(item, None))
      else if Utf8ToNumericSupported(source, item) then Some(TryCastUtf8ToNumericList(item))
      else if ScalarCastSupported(source, item) then Some(ScalarToList(item, Some(item)))
      else None
    else if source.TimestampMicros? && target.Int64? then Some(TimestampMicrosToMillis)
    else if source.Int64? && target.TimestampMicros? then Some(EpochMillisToTimestampMicros)
    else if Utf8ToNumericSupported(source, target) then Some(TryCastUtf8ToNumeric(target))
    else if ScalarCastSupported(source, target) then Some(CastTo(target))
    else None
  }

  /** The item types that single values can be wrapped into lists of. */
  predicate Wrappable(t: DataType) {
    match t
    case UInt64 | Int64 | Float64 | Boolean | Utf8 | Binary | TimestampMicros => true
    case _ => false
  }

  function WrapInList(scalar: DataType, item: DataType): Option<DataType> {
    if Wrappable(item) && scalar == item then Some(List(item)) else None
  }

  function TryCastUtf8(source: DataType, target: DataType): Option<DataType> {
    if Utf8ToNumericSupported(source, target) then Some(target) else None
  }

  /**
   The type of the array a coercion produces from an array of the source type; None when applying it fails on an
   unsupported or unexpected type. Arrow's cast kernel is taken to support the casts that get planned.
  */
  function CoercedType(source: DataType, coercion: Coercion): Option<DataType> {
    match coercion
    case Exact => Some(source)
    case CastTo(target) => Some(target)
    case EpochMillisToTimestampMicros => if source.Int64? then Some(TimestampMicros) else None
    case TimestampMicrosToMillis => if source.TimestampMicros? then Some(DataType.Int64) else None
    case TimestampMicrosToMillisList =>
      if source.TimestampMicros? then WrapInList(DataType.Int64, DataType.Int64) else None
    case TryCastUtf8ToNumeric(target) => TryCastUtf8(source, target)
    case TryCastUtf8ToNumericList(item) =>
      var numeric :- TryCastUtf8(source, item);
      WrapInList(numeric, item)
    case TryCastUtf8ListToNumericList(item) =>
      if source.List? then
        var numeric :- TryCastUtf8(source.item, item);
        Some(List(numeric))
      else None
    case ScalarToList(item, castTo) => WrapInList(if castTo.Some? then castTo.value else source, item)
  }

  /** Types of numbers, of texts and of instants. */
  ghost predicate HoldsNumbers(t: DataType) {
    t.Int8? || t.Int16? || t.Int32? || t.Int64? || t.UInt8? || t.UInt16? || t.UInt32? || t.UInt64? ||
    t.Float16? || t.Float32? || t.Float64?
  }

  ghost predicate HoldsTexts(t: DataType) {
    t.Utf8? || t.Utf8View?
  }

  ghost predicate HoldsInstants(t: DataType) {
    t.TimestampMicros? || t.OtherTimestamp?
  }

  /** Single values that become others: whatever can be written out, numbers and instants among themselves, numerals. */
  ghost predicate IsConvertible(source: DataType, target: DataType) {
    || source == target
    || (HoldsTexts(target) &&
        (HoldsTexts(source) || HoldsNumbers(source) || HoldsInstants(source) || source.Boolean? ||
         (source.Dictionary? && source.value.Utf8?)))
    || (HoldsNumbers(source) && HoldsNumbers(target))
    || (HoldsInstants(source) && HoldsInstants(target))
    || (HoldsTexts(source) && (target.Int64? || target.UInt64? || target.Float64?))
  }

  /** Lists become lists if their items do; single values become lists too; and microseconds stand for milliseconds. */
  ghost predicate CanBecome(source: DataType, target: DataType) {
    if target.List? then
      IsConvertible(if source.List? then source.item else source, target.item) ||
      (source.TimestampMicros? && target.item.Int64?)
    else
      IsConvertible(source, target) || (source.TimestampMicros? && target.Int64?) ||
      (source.Int64? && target.TimestampMicros?)
  }

  lemma {:induction false} ConvertibleWhen(source: DataType, target: DataType)
    ensures Utf8ToNumericSupported(source, target) || ScalarCastSupported(source, target) <==>
            IsConvertible(source, target)
  {
  }

  /** A coercion is planned exactly between such types, and nothing is done between equal ones. */
  lemma {:induction false} CoercionExistsWhen(source: DataType, target: DataType)
    ensures PlanCoercion(source, target).Some? <==> CanBecome(source, target)
    ensures PlanCoercion(source, target) == Some(Exact) <==> source == target
  {
    if target.List? {
      ConvertibleWhen(if source.List? then source.item else source, target.item);
    } else {
      ConvertibleWhen(source, target);
    }
  }

  /**
   A planned coercion can be applied, and gives the target type, exactly when it does not have to wrap single
   values into lists of a type without a list builder.
  */
  lemma {:induction false} PlannedCoercionRuns(source: DataType, target: DataType)
    requires PlanCoercion(source, target).Some?
    ensures CoercedType(source, PlanCoercion(source, target).value) == Some(target) <==>
      (target.List? && !source.List? ==> Wrappable(target.item))
  {
  }

  /** A string-view column next to a list of string views is planned and then fails. */
  lemma {:induction false} StringViewListFails()
    ensures PlanCoercion(Utf8View, List(Utf8View)).Some?
    ensures CoercedType(Utf8View, PlanCoercion(Utf8View, List(Utf8View)).value).None?
    ensures MergeFieldTypes(Utf8View, List(Utf8View)) == Some(List(Utf8View))
  {
  }

  // ---------------------------------------------------------------------------
  // The types a split can have
  // ---------------------------------------------------------------------------

  function ScalarArrowType(kind: FieldType): Option<DataType> {
    match kind
    case U64Field => Some(UInt64)
    case I64Field => Some(DataType.Int64)
    case F64Field => Some(DataType.Float64)
    case BoolField => Some(DataType.Boolean)
    case DateField(_) => Some(TimestampMicros)
    case StrField => Some(Dictionary(Int32, DataType.Utf8))
    case BytesField => Some(DataType.Binary)
    case IpField(_) => Some(DataType.Utf8)
    case FacetField | JsonField => None
  }

  function FieldArrowType(kind: FieldType, multiValued: bool): Option<DataType> {
    var scalar :- ScalarArrowType(kind);
    Some(if multiValued then List(if scalar.Dictionary? then scalar.value else scalar) else scalar)
  }

  /** An index's fields in schema order: name, type, fast or not, and whether any document has several values. */
  datatype IndexField = IndexField(name: string, kind: FieldType, fast: bool, multiValued: bool)

  function ArrowFields(fields: seq<IndexField>): seq<Field> {
    if fields == [] then []
    else
      var t := FieldArrowType(fields[0].kind, fields[0].multiValued);
      (if fields[0].fast && t.Some? then [Field(fields[0].name, t.value, true, None)] else []) +
      ArrowFields(fields[1..])
  }

  function TantivySchemaToArrow(fields: seq<IndexField>): Schema {
    [DOC_ID_FIELD, SEGMENT_ORD_FIELD] + ArrowFields(fields)
  }

  /** The types of fast fields. */
  predicate IsFastType(t: DataType) {
    match t
    case UInt64 | Int64 | Float64 | Boolean | TimestampMicros | Binary | Utf8 | Dictionary(Int32, Utf8) => true
    case List(item) => Wrappable(item)
    case _ => false
  }

  /** A split schema as it is derived from an index. */
  ghost predicate IsDerived(schema: Schema) {
    forall i :: 0 <= i < |schema| ==>
      && schema[i].logical.None?
      && ((IsFastType(schema[i].dataType) && schema[i].nullable) ||
          schema[i] == DOC_ID_FIELD || schema[i] == SEGMENT_ORD_FIELD)
      && (IsInternalName(schema[i].name) ==> schema[i] == DOC_ID_FIELD || schema[i] == SEGMENT_ORD_FIELD)
  }

  lemma {:induction false} ArrowFieldsAreFast(fields: seq<IndexField>)
    requires forall i :: 0 <= i < |fields| ==> !IsInternalName(fields[i].name)
    ensures IsDerived(ArrowFields(fields))
  {
    if fields == [] {
    } else {
      ArrowFieldsAreFast(fields[1..]);
    }
  }

  lemma {:induction false} DerivedSchema(fields: seq<IndexField>)
    requires forall i :: 0 <= i < |fields| ==> !IsInternalName(fields[i].name)
    ensures IsDerived(TantivySchemaToArrow(fields))
  {
    ArrowFieldsAreFast(fields);
  }

  /** Merging stays among the fast types. */
  lemma {:induction false} MergeStaysFast(a: DataType, b: DataType)
    requires IsFastType(a) && IsFastType(b) && MergeFieldTypes(a, b).Some?
    ensures IsFastType(MergeFieldTypes(a, b).value)
  {
  }

  /** A fast type that is below another one coerces to it, and the coercion runs. */
  lemma {:induction false} BelowMeansCoercible(source: DataType, target: DataType)
    requires IsFastType(source) && IsFastType(target) && MergeFieldTypes(source, target) == Some(target)
    ensures PlanCoercion(source, target).Some?
    ensures CoercedType(source, PlanCoercion(source, target).value) == Some(target)
  {
  }

  // ---------------------------------------------------------------------------
  // Projection plans
  // ---------------------------------------------------------------------------

  datatype SourcePlan = SourcePlan(source: Field, coercion: Coercion)
  datatype ColumnPlan = ColumnPlan(output: Field, sources: seq<SourcePlan>)

  predicate MatchesOutput(field: Field, output: string) {
    field.name == output || field.logical == Some(output)
  }

  /** The sources of one output column, in split order; an error names the column that cannot be coerced. */
  function PlanSources(split: Schema, output: Field): Result<seq<SourcePlan>, string> {
    if split == [] then Ok([])
    else if !MatchesOutput(split[0], output.name) then PlanSources(split[1..], output)
    else
      match PlanCoercion(split[0].dataType, output.dataType)
      case None => Err(output.name)
      case Some(coercion) =>
        var rest :- PlanSources(split[1..], output);
        Ok([SourcePlan(split[0], coercion)] + rest)
  }

  /** The fields of the split that are called so, by their own or by their logical name, in order. */
  ghost function FieldsCalled(split: Schema, name: string): Schema {
    if split == [] then []
    else
      var last := split[|split| - 1];
      FieldsCalled(split[..|split| - 1], name) + if last.name == name || last.logical == Some(name) then [last] else []
  }

  lemma {:induction false} FieldsCalledCons(split: Schema, name: string)
    requires split != []
    ensures FieldsCalled(split, name) ==
            (if MatchesOutput(split[0], name) then [split[0]] else []) + FieldsCalled(split[1..], name)
  {
    var n := |split| - 1;
    if n > 0 {
      FieldsCalledCons(split[..n], name);
      assert split[..n][1..] == split[1..][..n - 1];
    } else {
      assert split[..n] == [] && split[1..] == [];
    }
  }

  /** The sources of a column are exactly the fields called so, an aliased one included, in the order of the split. */
  lemma {:induction false} SourcesAreTheCalled(split: Schema, output: Field)
    requires PlanSources(split, output).Ok?
    ensures var sources, called := PlanSources(split, output).value, FieldsCalled(split, output.name);
      |sources| == |called| && forall k :: 0 <= k < |sources| ==>
        sources[k].source == called[k] &&
        PlanCoercion(called[k].dataType, output.dataType) == Some(sources[k].coercion)
  {
    if split == [] {
    } else {
      SourcesAreTheCalled(split[1..], output);
      FieldsCalledCons(split, output.name);
    }
  }

  function PlanFastFieldProjection(split: Schema, canonical: Schema): Result<seq<ColumnPlan>, string> {
    if canonical == [] then Ok([])
    else
      var sources :- PlanSources(split, canonical[0]);
      var rest :- PlanFastFieldProjection(split, canonical[1..]);
      Ok([ColumnPlan(canonical[0], sources)] + rest)
  }

  /** Every source of the column turns into the column's type. */
  ghost predicate ColumnRuns(plan: ColumnPlan) {
    forall i :: 0 <= i < |plan.sources| ==>
      CoercedType(plan.sources[i].source.dataType, plan.sources[i].coercion) == Some(plan.output.dataType)
  }

  /** The plan covers the canonical columns in order, and each of them runs. */
  ghost predicate PlanRuns(plan: seq<ColumnPlan>, canonical: Schema) {
    && |plan| == |canonical|
    && forall i :: 0 <= i < |plan| ==> plan[i].output == canonical[i] && ColumnRuns(plan[i])
  }

  lemma {:induction false} SourcesRun(split: Schema, output: Field)
    requires forall i :: 0 <= i < |split| && MatchesOutput(split[i], output.name) ==>
      PlanCoercion(split[i].dataType, output.dataType).Some? &&
      CoercedType(split[i].dataType, PlanCoercion(split[i].dataType, output.dataType).value) == Some(output.dataType)
    ensures PlanSources(split, output).Ok? && ColumnRuns(ColumnPlan(output, PlanSources(split, output).value))
  {
    if split == [] {
    } else {
      SourcesRun(split[1..], output);
    }
  }

  lemma {:induction false} ProjectionRuns(split: Schema, canonical: Schema)
    requires forall i :: 0 <= i < |canonical| ==>
      PlanSources(split, canonical[i]).Ok? &&
      ColumnRuns(ColumnPlan(canonical[i], PlanSources(split, canonical[i]).value))
    ensures PlanFastFieldProjection(split, canonical).Ok?
    ensures PlanRuns(PlanFastFieldProjection(split, canonical).value, canonical)
  {
    if canonical == [] {
    } else {
      ProjectionRuns(split, canonical[1..]);
      var rest := PlanFastFieldProjection(split, canonical[1..]).value;
      var plan := PlanFastFieldProjection(split, canonical).value;
      assert plan[0] == ColumnPlan(canonical[0], PlanSources(split, canonical[0]).value);
      assert plan[1..] == rest;
    }
  }

  /** The one type can become the other, and no values have to be wrapped into lists that cannot be built. */
  ghost predicate Coerces(source: DataType, target: DataType) {
    CanBecome(source, target) && (target.List? && !source.List? ==> Wrappable(target.item))
  }

  /** Every field of the split that is a source of the column, by name or as an alias, coerces to its type. */
  ghost predicate AllSourcesCoerce(split: Schema, output: Field) {
    forall j :: 0 <= j < |split| && (split[j].name == output.name || split[j].logical == Some(output.name)) ==>
      Coerces(split[j].dataType, output.dataType)
  }

  ghost predicate ColumnIsPlannedAndRuns(split: Schema, output: Field) {
    PlanSources(split, output).Ok? && ColumnRuns(ColumnPlan(output, PlanSources(split, output).value))
  }

  lemma {:induction false} ColumnRunsWhen(split: Schema, output: Field)
    ensures ColumnIsPlannedAndRuns(split, output) <==> AllSourcesCoerce(split, output)
  {
    if split == [] {
    } else {
      ColumnRunsWhen(split[1..], output);
      assert forall j :: 1 <= j < |split| ==> split[j] == split[1..][j - 1];
      assert forall j :: 0 <= j < |split[1..]| ==> split[1..][j] == split[j + 1];
      if MatchesOutput(split[0], output.name) {
        FirstSourceRunsWhen(split, output);
      }
    }
  }

  lemma {:induction false} FirstSourceRunsWhen(split: Schema, output: Field)
    requires split != [] && MatchesOutput(split[0], output.name)
    ensures ColumnIsPlannedAndRuns(split, output) <==>
            Coerces(split[0].dataType, output.dataType) && ColumnIsPlannedAndRuns(split[1..], output)
  {
    var coercion := PlanCoercion(split[0].dataType, output.dataType);
    CoercionExistsWhen(split[0].dataType, output.dataType);
    if coercion.Some? && PlanSources(split[1..], output).Ok? {
      PlannedCoercionRuns(split[0].dataType, output.dataType);
      var rest := PlanSources(split[1..], output).value;
      var all := [SourcePlan(split[0], coercion.value)] + rest;
      assert all[0].source == split[0] && forall j :: 0 <= j < |rest| ==> all[j + 1] == rest[j];
    }
  }

  lemma {:induction false} PlanIsOfColumns(split: Schema, canonical: Schema)
    requires PlanFastFieldProjection(split, canonical).Ok?
    ensures var plan := PlanFastFieldProjection(split, canonical).value;
      |plan| == |canonical| && forall i :: 0 <= i < |canonical| ==>
        PlanSources(split, canonical[i]).Ok? &&
        plan[i] == ColumnPlan(canonical[i], PlanSources(split, canonical[i]).value)
  {
    if canonical == [] {
    } else {
      PlanIsOfColumns(split, canonical[1..]);
      assert forall i :: 1 <= i < |canonical| ==> canonical[i] == canonical[1..][i - 1];
    }
  }

  /**
   For any schemas, supplied ones and ones with aliases included: the projection is planned and every coercion runs if
   and only if every source of every column coerces to the column's type.
  */
  lemma {:induction false} ProjectionRunsWhen(split: Schema, canonical: Schema)
    ensures (PlanFastFieldProjection(split, canonical).Ok? &&
             PlanRuns(PlanFastFieldProjection(split, canonical).value, canonical)) <==>
            forall i :: 0 <= i < |canonical| ==> AllSourcesCoerce(split, canonical[i])
  {
    forall i | 0 <= i < |canonical|
      ensures ColumnIsPlannedAndRuns(split, canonical[i]) <==> AllSourcesCoerce(split, canonical[i])
    {
      ColumnRunsWhen(split, canonical[i]);
    }
    if PlanFastFieldProjection(split, canonical).Ok? {
      PlanIsOfColumns(split, canonical);
    }
    if forall i :: 0 <= i < |canonical| ==> AllSourcesCoerce(split, canonical[i]) {
      ProjectionRuns(split, canonical);
    }
  }

  lemma {:induction false} JoinedTypeIsFast(name: string, fields: Schema)
    requires IsDerived(fields) && !IsInternalName(name)
    ensures JoinFields(name, fields).Type? ==> IsFastType(JoinFields(name, fields).t)
  {
    if fields == [] {
    } else {
      var n := |fields| - 1;
      JoinedTypeIsFast(name, fields[..n]);
      var before := JoinFields(name, fields[..n]);
      if before.Type? && fields[n].name == name && MergeFieldTypes(before.t, fields[n].dataType).Some? {
        MergeStaysFast(before.t, fields[n].dataType);
      }
    }
  }

  lemma {:induction false} CanonicalTypeIsFast(name: string, schemas: seq<Schema>)
    requires (forall i :: 0 <= i < |schemas| ==> IsDerived(schemas[i])) && !IsInternalName(name)
    ensures JoinSchemas(name, schemas).Type? ==> IsFastType(JoinSchemas(name, schemas).t)
  {
    if schemas == [] {
    } else {
      var n := |schemas| - 1;
      CanonicalTypeIsFast(name, schemas[..n]);
      JoinedTypeIsFast(name, schemas[n]);
      var before, last := JoinSchemas(name, schemas[..n]), JoinFields(name, schemas[n]);
      if before.Type? && last.Type? && MergeFieldTypes(before.t, last.t).Some? {
        MergeStaysFast(before.t, last.t);
      }
    }
  }

  /** In a schema of distinct names, a field is found under its name. */
  lemma {:induction false} LookupFinds(fields: Schema, i: nat)
    requires i < |fields| && DistinctNames(fields)
    ensures Lookup(fields, fields[i].name) == Type(fields[i].dataType)
  {
    if i == 0 {
    } else {
      assert fields[0].name != fields[i].name;
      LookupFinds(fields[1..], i - 1);
    }
  }

  /** A split's own type of a column coerces to the canonical type of that column. */
  lemma {:induction false} SplitTypeCoerces(schemas: seq<Schema>, i: nat, j: nat, target: DataType)
    requires (forall k :: 0 <= k < |schemas| ==> IsDerived(schemas[k])) && i < |schemas| && j < |schemas[i]|
    requires !IsInternalName(schemas[i][j].name)
    requires JoinSchemas(schemas[i][j].name, schemas) == Type(target)
    ensures PlanCoercion(schemas[i][j].dataType, target).Some?
    ensures CoercedType(schemas[i][j].dataType, PlanCoercion(schemas[i][j].dataType, target).value) == Some(target)
  {
    var field := schemas[i][j];
    var own := JoinFields(field.name, schemas[i]);
    FieldBelowSchema(field.name, schemas[i], j);
    JoinIsUpperBound(field.name, schemas, i);
    JoinLaws(Type(field.dataType), own, Type(target));
    CanonicalTypeIsFast(field.name, schemas);
    BelowMeansCoercible(field.dataType, target);
  }

  /**
   An inferred canonical schema is always executable: for every split it was inferred from, planning the projection
   succeeds and every planned coercion yields the canonical type.
  */
  lemma {:induction false} InferredSchemaIsExecutable(schemas: seq<Schema>, canonical: Schema, i: nat)
    requires forall k :: 0 <= k < |schemas| ==> IsDerived(schemas[k])
    requires IsCanonical(canonical, name => JoinSchemas(name, schemas)) && i < |schemas|
    ensures PlanFastFieldProjection(schemas[i], canonical).Ok?
    ensures PlanRuns(PlanFastFieldProjection(schemas[i], canonical).value, canonical)
  {
    forall c | 0 <= c < |canonical|
      ensures PlanSources(schemas[i], canonical[c]).Ok?
      ensures ColumnRuns(ColumnPlan(canonical[c], PlanSources(schemas[i], canonical[c]).value))
    {
      var output := canonical[c];
      LookupFinds(canonical, c);
      forall j | 0 <= j < |schemas[i]| && MatchesOutput(schemas[i][j], output.name)
        ensures PlanCoercion(schemas[i][j].dataType, output.dataType).Some?
        ensures CoercedType(schemas[i][j].dataType, PlanCoercion(schemas[i][j].dataType, output.dataType).value) ==
          Some(output.dataType)
      {
        assert IsDerived(schemas[i]);
        if IsInternalName(output.name) {
          assert c < 2 by {
            assert canonical[0].name == DOC_ID && canonical[1].name == SEGMENT_ORD;
          }
        } else {
          SplitTypeCoerces(schemas, i, j, output.dataType);
        }
      }
      SourcesRun(schemas[i], output);
    }
    ProjectionRuns(schemas[i], canonical);
  }
}
