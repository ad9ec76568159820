/**
 String fast fields as Arrow dictionary columns.

 A segment stores a string column as ordinals into its sorted term dictionary. Chunks are turned into dictionary
 arrays in one of two ways: with the whole dictionary, streamed once per segment and shared by all chunks, or with
 a compact dictionary of only the terms the chunk refers to.
*/
module DictionaryColumns {
  import opened Prelude

  /** Terms in ordinal order, and the term ordinals of each document. */
  datatype StringColumn = StringColumn(terms: seq<string>, ordinals: seq<seq<nat>>)

  /** No term occurs twice, and every ordinal names a term. */
  ghost predicate ValidColumn(column: StringColumn) {
    && (forall a, b :: 0 <= a < b < |column.terms| ==> column.terms[a] != column.terms[b])
    && (forall doc, n :: 0 <= doc < |column.ordinals| && 0 <= n < |column.ordinals[doc]| ==>
          column.ordinals[doc][n] < |column.terms|)
  }

  ghost predicate DocsOf(column: StringColumn, docs: seq<nat>) {
    forall i :: 0 <= i < |docs| ==> docs[i] < |column.ordinals|
  }

  function FirstOrdinal(column: StringColumn, doc: nat): (ordinal: Option<nat>)
    requires doc < |column.ordinals|
  {
    var ordinals := column.ordinals[doc];
    if ordinals == [] then None else Some(ordinals[0])
  }

  /** What a dictionary array of these documents has to say: each document's first term. */
  function FirstTerms(column: StringColumn, docs: seq<nat>): (terms: seq<Option<string>>)
    requires ValidColumn(column) && DocsOf(column, docs)
    ensures |terms| == |docs|
    ensures forall i :: 0 <= i < |docs| ==>
      var ordinals := column.ordinals[docs[i]];
      terms[i] == if |ordinals| == 0 then None else Some(column.terms[ordinals[0]])
  {
    seq(|docs|, i requires 0 <= i < |docs| =>
      var ordinal := FirstOrdinal(column, docs[i]);
      if ordinal.None? then None else Some(column.terms[ordinal.value]))
  }

  /** The ordinals the documents refer to. */
  ghost function Referenced(column: StringColumn, docs: seq<nat>): set<nat>
    requires DocsOf(column, docs)
  {
    set i | 0 <= i < |docs| && FirstOrdinal(column, docs[i]).Some? :: FirstOrdinal(column, docs[i]).value
  }

  datatype DictArray = DictArray(keys: seq<Option<nat>>, values: seq<string>)

  ghost predicate WellFormed(a: DictArray) {
    forall i :: 0 <= i < |a.keys| && a.keys[i].Some? ==> a.keys[i].value < |a.values|
  }

  ghost function Decoded(a: DictArray): seq<Option<string>>
    requires WellFormed(a)
  {
    seq(|a.keys|, i requires 0 <= i < |a.keys| =>
      if a.keys[i].None? then None else Some(a.values[a.keys[i].value]))
  }

  datatype DictError = OrdinalMissing | KeyOverflow | KeyOutOfRange

  const MAX_KEY := 0x7FFF_FFFF

  function CheckedKey(n: nat): Result<nat, DictError> {
    if n <= MAX_KEY then Ok(n) else Err(KeyOverflow)
  }

  /** Arrow refuses keys that name no value. */
  method TryNew(keys: seq<Option<nat>>, values: seq<string>) returns (r: Result<DictArray, DictError>)
    ensures r == if WellFormed(DictArray(keys, values)) then Ok(DictArray(keys, values)) else Err(KeyOutOfRange)
  {
    for i := 0 to |keys|
      invariant forall k :: 0 <= k < i && keys[k].Some? ==> keys[k].value < |values|
    {
      if keys[i].Some? && keys[i].value >= |values| {
        return Err(KeyOutOfRange);
      }
    }
    return Ok(DictArray(keys, values));
  }

  // ---------------------------------------------------------------------------
  // Sorted ordinals
  // ---------------------------------------------------------------------------

  /** Ok(the position of x), or Err(the position that keeps the order when x is inserted there). */
  function BinarySearch(s: seq<nat>, x: nat): (r: Result<nat, nat>)
    requires Increasing(s)
    ensures r.Ok? ==> r.value < |s| && s[r.value] == x
    ensures r.Err? ==>
      r.error <= |s| &&
      (forall i :: 0 <= i < r.error ==> s[i] < x) && (forall i :: r.error <= i < |s| ==> x < s[i])
  {
    if s == [] then Err(0)
    else
      var middle := |s| / 2;
      if s[middle] == x then Ok(middle)
      else if x < s[middle] then BinarySearch(s[..middle], x)
      else
        match BinarySearch(s[middle + 1..], x)
        case Ok(at) => Ok(middle + 1 + at)
        case Err(at) => Err(middle + 1 + at)
  }

  lemma {:induction false} InsertKeepsOrder(s: seq<nat>, at: nat, x: nat)
    requires Increasing(s) && at <= |s|
    requires (forall i :: 0 <= i < at ==> s[i] < x) && (forall i :: at <= i < |s| ==> x < s[i])
    ensures Increasing(s[..at] + [x] + s[at..])
  {
    var longer := s[..at] + [x] + s[at..];
    forall i, j | 0 <= i < j < |longer|
      ensures longer[i] < longer[j]
    {
      if j < at {
        assert longer[i] == s[i] && longer[j] == s[j];
      } else if j == at {
        assert longer[i] == s[i] && longer[j] == x;
      } else {
        assert longer[j] == s[j - 1];
        assert longer[i] == if i < at then s[i] else if i == at then x else s[i - 1];
      }
    }
  }

  lemma {:induction false} InsertAddsOne(s: seq<nat>, at: nat, x: nat)
    requires at <= |s|
    ensures Elements(s[..at] + [x] + s[at..]) == Elements(s) + {x}
  {
    var longer := s[..at] + [x] + s[at..];
    assert longer[at] == x;
    forall y | y in Elements(s)
      ensures y in Elements(longer)
    {
      var i :| 0 <= i < |s| && s[i] == y;
      assert longer[if i < at then i else i + 1] == y;
    }
    forall y | y in Elements(longer)
      ensures y in Elements(s) + {x}
    {
      var i :| 0 <= i < |longer| && longer[i] == y;
      assert y == if i < at then s[i] else if i == at then x else s[i - 1];
    }
  }

  /** The position of an ordinal among some of the ordinals is at most the ordinal itself. */
  lemma {:induction false} PositionAtMostOrdinal(s: seq<nat>, i: nat)
    requires Increasing(s) && i < |s|
    ensures i <= s[i]
  {
    if i == 0 {
    } else {
      PositionAtMostOrdinal(s, i - 1);
      assert s[i - 1] < s[i];
    }
  }

  lemma {:induction false} IncreasingHasNoRepeats(s: seq<nat>)
    requires Increasing(s)
    ensures |Elements(s)| == |s|
  {
    if s == [] {
    } else {
      var init, last := s[..|s| - 1], s[|s| - 1];
      IncreasingHasNoRepeats(init);
      assert Elements(s) == Elements(init) + {last} by {
        assert forall i :: 0 <= i < |init| ==> s[i] == init[i];
      }
      assert last !in Elements(init);
    }
  }

  // ---------------------------------------------------------------------------
  // The compact dictionary
  // ---------------------------------------------------------------------------

  /** First pass: each document's ordinal, and the ordinals seen, in order. */
  method CollectOrdinals(column: StringColumn, docs: seq<nat>) returns (rawOrds: seq<Option<nat>>, seenOrds: seq<nat>)
    requires ValidColumn(column) && DocsOf(column, docs)
    ensures |rawOrds| == |docs| && forall i :: 0 <= i < |docs| ==> rawOrds[i] == FirstOrdinal(column, docs[i])
    ensures Increasing(seenOrds) && Elements(seenOrds) == Referenced(column, docs)
  {
    rawOrds, seenOrds := [], [];
    for n := 0 to |docs|
      invariant |rawOrds| == n && forall i :: 0 <= i < n ==> rawOrds[i] == FirstOrdinal(column, docs[i])
      invariant Increasing(seenOrds) && Elements(seenOrds) == Referenced(column, docs[..n])
    {
      var ordinal := FirstOrdinal(column, docs[n]);
      assert docs[..n + 1] == docs[..n] + [docs[n]];
      ReferencedSnoc(column, docs[..n], docs[n]);
      rawOrds := rawOrds + [ordinal];
      if ordinal.Some? {
        var search := BinarySearch(seenOrds, ordinal.value);
        if search.Err? {
          InsertKeepsOrder(seenOrds, search.error, ordinal.value);
          InsertAddsOne(seenOrds, search.error, ordinal.value);
          seenOrds := seenOrds[..search.error] + [ordinal.value] + seenOrds[search.error..];
        } else {
          assert ordinal.value in Elements(seenOrds);
        }
      }
    }
    assert docs[..|docs|] == docs;
  }

  lemma {:induction false} ReferencedSnoc(column: StringColumn, docs: seq<nat>, doc: nat)
    requires DocsOf(column, docs + [doc])
    requires DocsOf(column, docs) && doc < |column.ordinals|
    ensures Referenced(column, docs + [doc]) ==
            Referenced(column, docs) +
            (if FirstOrdinal(column, doc).Some? then {FirstOrdinal(column, doc).value} else {})
  {
    var all := docs + [doc];
    assert all[|docs|] == doc;
    assert forall i :: 0 <= i < |docs| ==> all[i] == docs[i];
    forall x | x in Referenced(column, docs)
      ensures x in Referenced(column, all)
    {
      var i :| 0 <= i < |docs| && FirstOrdinal(column, docs[i]) == Some(x);
      assert FirstOrdinal(column, all[i]) == Some(x);
    }
  }

  /** Keys into a dictionary of the seen ordinals: each document's key leads back to its ordinal. */
  ghost predicate KeysLeadBack(column: StringColumn, docs: seq<nat>, keys: seq<Option<nat>>, seen: seq<nat>)
    requires DocsOf(column, docs)
  {
    && |keys| == |docs|
    && (forall i :: 0 <= i < |docs| ==> KeyLeadsBack(keys[i], FirstOrdinal(column, docs[i]), seen))
  }

  ghost predicate KeyLeadsBack(key: Option<nat>, ordinal: Option<nat>, seen: seq<nat>) {
    if key.None? then ordinal.None?
    else key.value <= MAX_KEY && key.value < |seen| && ordinal == Some(seen[key.value])
  }

  /** Keys are ordered as the ordinals are, and none is above its ordinal. */
  ghost predicate KeysFollowOrdinals(column: StringColumn, docs: seq<nat>, keys: seq<Option<nat>>)
    requires DocsOf(column, docs)
  {
    && |keys| == |docs|
    && (forall i :: 0 <= i < |docs| ==> keys[i].Some? == FirstOrdinal(column, docs[i]).Some?)
    && (forall i :: 0 <= i < |docs| && keys[i].Some? ==> keys[i].value <= FirstOrdinal(column, docs[i]).value)
    && (forall i, j :: 0 <= i < |docs| && 0 <= j < |docs| && keys[i].Some? && keys[j].Some? ==>
          (keys[i].value < keys[j].value <==>
          FirstOrdinal(column, docs[i]).value < FirstOrdinal(column, docs[j]).value))
  }

  lemma {:induction false} LeadingBackFollows(
      column: StringColumn, docs: seq<nat>, keys: seq<Option<nat>>, seen: seq<nat>)
    requires DocsOf(column, docs) && Increasing(seen) && KeysLeadBack(column, docs, keys, seen)
    ensures KeysFollowOrdinals(column, docs, keys)
  {
    forall i | 0 <= i < |docs| && keys[i].Some?
      ensures keys[i].value <= FirstOrdinal(column, docs[i]).value
    {
      assert KeyLeadsBack(keys[i], FirstOrdinal(column, docs[i]), seen);
      PositionAtMostOrdinal(seen, keys[i].value);
    }
    forall i | 0 <= i < |docs|
      ensures keys[i].Some? == FirstOrdinal(column, docs[i]).Some?
    {
      assert KeyLeadsBack(keys[i], FirstOrdinal(column, docs[i]), seen);
    }
    forall i, j | 0 <= i < |docs| && 0 <= j < |docs| && keys[i].Some? && keys[j].Some?
      ensures keys[i].value < keys[j].value <==>
              FirstOrdinal(column, docs[i]).value < FirstOrdinal(column, docs[j]).value
    {
      assert KeyLeadsBack(keys[i], FirstOrdinal(column, docs[i]), seen);
      assert KeyLeadsBack(keys[j], FirstOrdinal(column, docs[j]), seen);
    }
  }

  lemma {:induction false} EveryTermIsReferenced(
      column: StringColumn, docs: seq<nat>, seen: seq<nat>, k: nat) returns (i: nat)
    requires DocsOf(column, docs) && Elements(seen) == Referenced(column, docs) && k < |seen|
    ensures i < |docs| && FirstOrdinal(column, docs[i]) == Some(seen[k])
  {
    assert seen[k] in Elements(seen);
    i :| 0 <= i < |docs| && FirstOrdinal(column, docs[i]) == Some(seen[k]);
  }

  /** Second pass: the terms of the seen ordinals. */
  method CompactValues(column: StringColumn, ghost docs: seq<nat>, seen: seq<nat>) returns (values: seq<string>)
    requires ValidColumn(column) && DocsOf(column, docs) && Elements(seen) == Referenced(column, docs)
    ensures |values| == |seen|
    ensures forall k :: 0 <= k < |seen| ==> seen[k] < |column.terms| && values[k] == column.terms[seen[k]]
  {
    values := [];
    for k := 0 to |seen|
      invariant |values| == k
      invariant forall j :: 0 <= j < k ==> seen[j] < |column.terms| && values[j] == column.terms[seen[j]]
    {
      ghost var i := EveryTermIsReferenced(column, docs, seen, k);
      assert column.ordinals[docs[i]][0] == seen[k];
      values := values + [column.terms[seen[k]]];
    }
  }

  lemma {:induction false} KeysReachTheLast(
      column: StringColumn, docs: seq<nat>, keys: seq<Option<nat>>, seen: seq<nat>)
    requires DocsOf(column, docs) && Increasing(seen) && Elements(seen) == Referenced(column, docs)
    requires KeysLeadBack(column, docs, keys, seen)
    ensures |seen| <= MAX_KEY + 1
  {
    if seen != [] {
      var i := EveryTermIsReferenced(column, docs, seen, |seen| - 1);
      assert KeyLeadsBack(keys[i], FirstOrdinal(column, docs[i]), seen);
      assert keys[i].value == |seen| - 1;
    }
  }

  /** Third pass: every ordinal is searched for again, and found. */
  method CompactKeys(column: StringColumn, ghost docs: seq<nat>, rawOrds: seq<Option<nat>>, seen: seq<nat>)
    returns (r: Result<seq<Option<nat>>, DictError>)
    requires DocsOf(column, docs)
    requires Increasing(seen) && Elements(seen) == Referenced(column, docs)
    requires |rawOrds| == |docs| && forall i :: 0 <= i < |docs| ==> rawOrds[i] == FirstOrdinal(column, docs[i])
    ensures r.Ok? ==> KeysLeadBack(column, docs, r.value, seen)
    ensures r.Err? <==> |seen| > MAX_KEY + 1
    ensures r.Err? ==> r.error == KeyOverflow
  {
    var keys := [];
    for n := 0 to |rawOrds|
      invariant |keys| == n
      invariant forall i :: 0 <= i < n ==> KeyLeadsBack(keys[i], rawOrds[i], seen)
    {
      if rawOrds[n].None? {
        keys := keys + [None];
      } else {
        assert rawOrds[n].value in Elements(seen);
        var search := BinarySearch(seen, rawOrds[n].value);
        if search.Err? {
          assert false;
          return Err(OrdinalMissing);
        }
        var key :- CheckedKey(search.value);
        keys := keys + [Some(key)];
      }
    }
    KeysReachTheLast(column, docs, keys, seen);
    return Ok(keys);
  }

  /**
   The chunk decodes to each document's first term. It fails exactly when it refers to more terms than there are
   keys; no other error can be reached. The dictionary has one value for each term referred to.
  */
  method BuildCompactDictArray(column: StringColumn, docs: seq<nat>) returns (r: Result<DictArray, DictError>)
    requires ValidColumn(column) && DocsOf(column, docs)
    ensures r.Err? <==> |Referenced(column, docs)| > 0x8000_0000
    ensures r.Err? ==> r.error == KeyOverflow
    ensures r.Ok? ==> WellFormed(r.value) && Decoded(r.value) == FirstTerms(column, docs)
    ensures r.Ok? ==> |r.value.values| == |Referenced(column, docs)|
    ensures r.Ok? ==> KeysFollowOrdinals(column, docs, r.value.keys)
  {
    var rawOrds, seenOrds := CollectOrdinals(column, docs);
    IncreasingHasNoRepeats(seenOrds);
    var values := CompactValues(column, docs, seenOrds);
    var keys :- CompactKeys(column, docs, rawOrds, seenOrds);
    LeadingBackFollows(column, docs, keys, seenOrds);
    LeadingBackDecodes(column, docs, keys, seenOrds, values);
    r := TryNew(keys, values);
  }

  lemma {:induction false} LeadingBackDecodes(
      column: StringColumn, docs: seq<nat>, keys: seq<Option<nat>>, seen: seq<nat>, values: seq<string>)
    requires ValidColumn(column) && DocsOf(column, docs) && KeysLeadBack(column, docs, keys, seen)
    requires |values| == |seen|
    requires forall k :: 0 <= k < |seen| ==> seen[k] < |column.terms| && values[k] == column.terms[seen[k]]
    ensures WellFormed(DictArray(keys, values))
    ensures Decoded(DictArray(keys, values)) == FirstTerms(column, docs)
  {
    var a := DictArray(keys, values);
    forall i | 0 <= i < |docs|
      ensures keys[i].Some? ==> keys[i].value < |values|
      ensures keys[i].Some? ==> FirstTerms(column, docs)[i] == Some(values[keys[i].value])
      ensures keys[i].None? ==> FirstTerms(column, docs)[i] == None
    {
      assert KeyLeadsBack(keys[i], FirstOrdinal(column, docs[i]), seen);
    }
  }

  // ---------------------------------------------------------------------------
  // The cached dictionary
  // ---------------------------------------------------------------------------

  /** A projected field: its name, and the name it is read under in the segment. */
  datatype Field = Field(name: string, readName: string, isDictionary: bool)

  /** The string columns of a segment; a segment may lack a field. */
  type Segment = map<string, StringColumn>

  ghost predicate ValidSegment(segment: Segment) {
    forall name :: name in segment ==> ValidColumn(segment[name])
  }

  ghost predicate DistinctNames(fields: seq<Field>) {
    forall i, j :: 0 <= i < j < |fields| ==> fields[i].name != fields[j].name
  }

  type DictCache = map<string, seq<string>>

  /** The whole dictionary, in ordinal order, of the last dictionary field of that name that the segment has. */
  function CachedTerms(segment: Segment, fields: seq<Field>, name: string): Option<seq<string>> {
    if fields == [] then None
    else
      var last := fields[|fields| - 1];
      if last.name == name && last.isDictionary && last.readName in segment then Some(segment[last.readName].terms)
      else CachedTerms(segment, fields[..|fields| - 1], name)
  }

  ghost predicate CacheOf(cache: DictCache, segment: Segment, fields: seq<Field>) {
    forall name :: CachedTerms(segment, fields, name) == if name in cache then Some(cache[name]) else None
  }

  /** Where names are distinct, a dictionary field that the segment has is cached with its own dictionary. */
  lemma {:induction false} FieldIsCached(segment: Segment, fields: seq<Field>, n: nat)
    requires DistinctNames(fields) && n < |fields| && fields[n].isDictionary && fields[n].readName in segment
    ensures CachedTerms(segment, fields, fields[n].name) == Some(segment[fields[n].readName].terms)
  {
    if n == |fields| - 1 {
    } else {
      FieldIsCached(segment, fields[..|fields| - 1], n);
    }
  }

  method BuildCache(segment: Segment, fields: seq<Field>) returns (cache: DictCache)
    ensures CacheOf(cache, segment, fields)
  {
    cache := map[];
    for n := 0 to |fields|
      invariant CacheOf(cache, segment, fields[..n])
    {
      var field := fields[n];
      assert fields[..n + 1][..n] == fields[..n];
      if field.isDictionary && field.readName in segment {
        var values := StreamDictionary(segment[field.readName]);
        cache := cache[field.name := values];
      }
    }
    assert fields[..|fields|] == fields;
  }

  /** The terms, streamed one by one in ordinal order. */
  method StreamDictionary(column: StringColumn) returns (values: seq<string>)
    ensures values == column.terms
  {
    values := [];
    for ordinal := 0 to |column.terms|
      invariant values == column.terms[..ordinal]
    {
      values := values + [column.terms[ordinal]];
    }
  }

  /** Keys are the ordinals themselves. */
  method BuildCachedDictArray(column: StringColumn, docs: seq<nat>, values: seq<string>)
    returns (r: Result<DictArray, DictError>)
    requires ValidColumn(column) && DocsOf(column, docs) && values == column.terms
    ensures r.Err? <==> exists ordinal :: ordinal in Referenced(column, docs) && ordinal >= 0x8000_0000
    ensures r.Err? ==> r.error == KeyOverflow
    ensures r.Ok? ==> WellFormed(r.value) && Decoded(r.value) == FirstTerms(column, docs)
    ensures r.Ok? ==> KeysFollowOrdinals(column, docs, r.value.keys)
  {
    var keys := [];
    for n := 0 to |docs|
      invariant |keys| == n
      invariant forall i :: 0 <= i < n ==>
        keys[i] == FirstOrdinal(column, docs[i]) && (keys[i].Some? ==> keys[i].value <= MAX_KEY)
    {
      var ordinal := FirstOrdinal(column, docs[n]);
      if ordinal.None? {
        keys := keys + [None];
      } else {
        assert ordinal.value in Referenced(column, docs);
        var key :- CheckedKey(ordinal.value);
        keys := keys + [Some(key)];
      }
    }
    forall i | 0 <= i < |docs| && keys[i].Some?
      ensures keys[i].value < |values|
    {
      assert column.ordinals[docs[i]][0] == keys[i].value;
    }
    assert Decoded(DictArray(keys, values)) == FirstTerms(column, docs);
    r := TryNew(keys, values);
  }

  // ---------------------------------------------------------------------------
  // Both ways agree
  // ---------------------------------------------------------------------------

  /** Wherever ordinals fit the key type, so do the positions of the compact dictionary. */
  lemma {:induction false} CompactFitsWhereCachedDoes(column: StringColumn, docs: seq<nat>)
    requires ValidColumn(column) && DocsOf(column, docs)
    requires forall ordinal :: ordinal in Referenced(column, docs) ==> ordinal <= MAX_KEY
    ensures |Referenced(column, docs)| <= MAX_KEY + 1
  {
    AtMostSoMany(Referenced(column, docs), MAX_KEY + 1);
  }

  lemma {:induction false} AtMostSoMany(ordinals: set<nat>, bound: nat)
    requires forall ordinal :: ordinal in ordinals ==> ordinal < bound
    ensures |ordinals| <= bound
    decreases bound
  {
    if bound == 0 {
      assert ordinals == {};
    } else {
      AtMostSoMany(ordinals - {bound - 1}, bound - 1);
      if bound - 1 in ordinals {
        assert ordinals == (ordinals - {bound - 1}) + {bound - 1};
      } else {
        assert ordinals == ordinals - {bound - 1};
      }
    }
  }

  /** What one projected dictionary field shows for the documents of one segment. */
  ghost function FieldTerms(segment: Segment, field: Field, docs: seq<nat>): seq<Option<string>>
    requires ValidSegment(segment)
    requires field.readName in segment ==> DocsOf(segment[field.readName], docs)
  {
    if field.readName in segment then FirstTerms(segment[field.readName], docs)
    else seq(|docs|, i => None)
  }

  /** What the cache has under the field's name, if the segment has the field, is the field's own dictionary. */
  ghost predicate HasOwnDictionary(segment: Segment, fields: seq<Field>, field: Field) {
    field.readName in segment ==> CachedTerms(segment, fields, field.name) == Some(segment[field.readName].terms)
  }

  /** A field the segment lacks is NULL throughout; otherwise the cached dictionary is used when there is one. */
  method BuildDictionaryArray(segment: Segment, field: Field, docs: seq<nat>, cache: Option<DictCache>,
                              ghost fields: seq<Field>)
    returns (r: Result<DictArray, DictError>)
    requires ValidSegment(segment)
    requires cache.Some? ==> CacheOf(cache.value, segment, fields) && HasOwnDictionary(segment, fields, field)
    requires field.readName in segment ==> DocsOf(segment[field.readName], docs)
    ensures r.Ok? ==> WellFormed(r.value) && Decoded(r.value) == FieldTerms(segment, field, docs)
    ensures r.Err? <==>
            field.readName in segment &&
            (if cache.None? then |Referenced(segment[field.readName], docs)| > 0x8000_0000
             else exists ordinal :: ordinal in Referenced(segment[field.readName], docs) && ordinal >= 0x8000_0000)
  {
    if field.readName !in segment {
      r := Ok(DictArray(seq(|docs|, i => None), []));
      assert Decoded(r.value) == FieldTerms(segment, field, docs);
      return;
    }
    var column := segment[field.readName];
    if cache.Some? && field.name in cache.value {
      r := BuildCachedDictArray(column, docs, cache.value[field.name]);
      return;
    }
    r := BuildCompactDictArray(column, docs);
  }
}
