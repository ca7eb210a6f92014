/** The mutator: from one captured request, the ordered list of structural
    variants that probe the target's input handling.  Every variant is a copy of
    the request with a new identifier and a new body and nothing else changed.
    The random four-character identifier suffix of each variant is supplied. */
module Mutation {
  import opened Models
  import Decimal

  const EmptyBodyTag := "MUTATION_EMPTY_BODY"
  const OversizedTag := "MUTATION_OVERSIZED"
  const MissingFieldPrefix := "MUTATION_MISSING_FIELD_"
  const TypeFlipPrefix := "MUTATION_TYPE_FLIP_"

  /** Length of the oversized filler body (10 KB). */
  const JunkLength := 10240
  /** The number a string value is flipped to. */
  const FlipNumber := 12345
  /** Length of the random identifier suffix. */
  const SuffixLength := 4

  /** The oversized filler: 10240 copies of 'A'. */
  function Junk(): (s: string)
    ensures |s| == JunkLength
    ensures forall i :: 0 <= i < |s| ==> s[i] == 'A'
  {
    seq(JunkLength, _ => 'A')
  }

  /** The type flip of one value.  A boolean counts as an integer, so it is
      written as its text ("True"/"False"); an integer becomes its decimal
      text; a string becomes the number 12345; anything else is kept. */
  function Flip(v: Value): (w: Value)
    ensures v.Other? <==> w == v
    ensures w.StrVal? <==> v.IntVal? || v.BoolVal?
    ensures w.IntVal? <==> v.StrVal?
    ensures v.IntVal? ==> w.s == Decimal.IntToString(v.i)
    ensures v.IntVal? ==> Decimal.IsDecimal(w.s) && Decimal.ParseInt(w.s) == v.i
    ensures v.BoolVal? ==> w.s == if v.b then "True" else "False"
    ensures v.StrVal? ==> w.i == FlipNumber
  {
    match v
    case IntVal(n) =>
      Decimal.IntToStringRoundTrip(n);
      StrVal(Decimal.IntToString(n))
    case BoolVal(b) => StrVal(if b then "True" else "False")
    case StrVal(_) => IntVal(FlipNumber)
    case Other(_) => v
  }

  /** The dictionary `fs` with `key` deleted.  On a key that is absent it returns
      `fs` unchanged, a total extension the mutator never uses: it deletes only
      keys read from the dictionary itself (where the system would raise). */
  function RemoveKey(fs: Fields, key: string): (r: Fields)
    ensures Keys(r) == Keys(fs) - {key}
    ensures |r| <= |fs|
  {
    if fs == [] then []
    else
      var rest := RemoveKey(fs[1..], key);
      KeysCons(fs);
      if fs[0].0 == key then rest
      else
        assert fs[0].0 !in Keys(fs[1..]);
        var r := [fs[0]] + rest;
        assert r[1..] == rest;
        KeysCons(r);
        r
  }

  /** Proof step for `RemoveKeyAt`: the total extension on an absent key. */
  lemma {:induction false} RemoveAbsentKey(fs: Fields, key: string)
    requires key !in Keys(fs)
    ensures RemoveKey(fs, key) == fs
  {
    if fs != [] {
      assert fs[0].0 in Keys(fs);
      assert Keys(fs[1..]) <= Keys(fs);
      RemoveAbsentKey(fs[1..], key);
    }
  }

  /** Deleting the key at position `i` drops exactly that entry and keeps the
      rest in order. */
  lemma {:induction false} RemoveKeyAt(fs: Fields, i: nat)
    requires i < |fs|
    ensures RemoveKey(fs, fs[i].0) == fs[..i] + fs[i + 1..]
  {
    var key := fs[i].0;
    if i == 0 {
      assert key !in Keys(fs[1..]);
      RemoveAbsentKey(fs[1..], key);
    } else {
      assert fs[0].0 != key;
      RemoveKeyAt(fs[1..], i - 1);
      assert fs[1..][i - 1].0 == key;
      assert fs[1..][..i - 1] + fs[1..][i..] == fs[1..i] + fs[i + 1..];
      assert [fs[0]] + fs[1..i] == fs[..i];
    }
  }

  /** The dictionary `fs` with the value under `key` replaced by `v`, in place.
      On a key that is absent it returns `fs` unchanged, a total extension the
      mutator never uses: it assigns only to keys read from the dictionary
      itself (where the system would append the key). */
  function SetKey(fs: Fields, key: string, v: Value): (r: Fields)
    ensures |r| == |fs|
    ensures forall i :: 0 <= i < |fs| ==> r[i].0 == fs[i].0
  {
    if fs == [] then []
    else
      var rest := SetKey(fs[1..], key, v);
      var r := [if fs[0].0 == key then (key, v) else fs[0]] + rest;
      assert forall i :: 1 <= i < |r| ==> r[i] == rest[i - 1];
      r
  }

  /** Assigning to the key at position `i` changes only that entry's value. */
  lemma {:induction false} SetKeyAt(fs: Fields, i: nat, v: Value)
    requires i < |fs|
    ensures SetKey(fs, fs[i].0, v) == fs[i := (fs[i].0, v)]
  {
    if i > 0 {
      SetKeyAt(fs[1..], i - 1, v);
      assert fs[1..][i - 1 := (fs[i].0, v)] == fs[i := (fs[i].0, v)][1..];
    } else if fs[1..] != [] {
      SetKeyAt(fs[1..], 0, fs[1].1);
      // no entry after position 0 carries the key
      assert fs[0].0 !in Keys(fs[1..]);
      SetKeyUntouched(fs[1..], fs[0].0, v);
    }
  }

  /** Proof step for `SetKeyAt`: the total extension on an absent key. */
  lemma {:induction false} SetKeyUntouched(fs: Fields, key: string, v: Value)
    requires key !in Keys(fs)
    ensures SetKey(fs, key, v) == fs
  {
    if fs != [] {
      assert fs[0].0 in Keys(fs);
      assert Keys(fs[1..]) <= Keys(fs);
      SetKeyUntouched(fs[1..], key, v);
    }
  }

  /** `fs` without its `k`-th entry. */
  function DropAt(fs: Fields, k: nat): Fields
    requires k < |fs|
  {
    var r := fs[..k] + fs[k + 1..];
    assert forall i :: 0 <= i < |r| ==> r[i] == fs[if i < k then i else i + 1];
    r
  }

  /** `fs` with its `k`-th value replaced by its type flip. */
  function FlipAt(fs: Fields, k: nat): Fields
    requires k < |fs|
  {
    fs[k := (fs[k].0, Flip(fs[k].1))]
  }

  /** Number of mutants of a request with this body. */
  function MutantCount(body: Body): nat
  {
    if body.Structured? then 2 + 2 * |body.fields| else 2
  }

  /** The mutation tag of the `i`-th mutant. */
  function MutantTag(body: Body, i: nat): string
    requires i < MutantCount(body)
  {
    if i == 0 then EmptyBodyTag
    else if i == 1 then OversizedTag
    else if i % 2 == 0 then MissingFieldPrefix + body.fields[(i - 2) / 2].0
    else TypeFlipPrefix + body.fields[(i - 2) / 2].0
  }

  /** A copy of `original` with a derived identifier and a new body. */
  function CreateMutant(original: CapturedRequest, newBody: Body, tag: string, suffix: string): (r: CapturedRequest)
    ensures r.Metadata() == original.Metadata().(body := newBody)
    ensures r.requestId == original.requestId + "_" + tag + "_" + suffix
    ensures |r.requestId| > |original.requestId|
  {
    original.(requestId := original.requestId + "_" + tag + "_" + suffix, body := newBody)
  }

  /** The `i`-th mutant of `request`, whose identifier suffix is `suffix`. */
  function MutantAt(request: CapturedRequest, i: nat, suffix: string): CapturedRequest
    requires i < MutantCount(request.body)
  {
    var tag := MutantTag(request.body, i);
    if i == 0 then CreateMutant(request, Absent, tag, suffix)
    else if i == 1 then CreateMutant(request, Raw(Junk()), tag, suffix)
    else
      var fs, k := request.body.fields, (i - 2) / 2;
      if i % 2 == 0 then CreateMutant(request, Structured(DropAt(fs, k)), tag, suffix)
      else CreateMutant(request, Structured(FlipAt(fs, k)), tag, suffix)
  }

  /** What the `i`-th mutant is: the original with a new identifier and a new
      body, where the body is cleared, the 10240-'A' filler, the dictionary
      without its `k`-th key, or the dictionary with its `k`-th value flipped. */
  lemma MutantAtShape(request: CapturedRequest, i: nat, suffix: string)
    requires i < MutantCount(request.body)
    ensures var r := MutantAt(request, i, suffix);
      && r.url == request.url && r.httpMethod == request.httpMethod
      && r.headers == request.headers && r.timestamp == request.timestamp
      && r.requestId == request.requestId + "_" + MutantTag(request.body, i) + "_" + suffix
      && (i == 0 ==> r.body == Absent)
      && (i == 1 ==> r.body.Raw? && |r.body.text| == JunkLength
                     && forall c :: 0 <= c < |r.body.text| ==> r.body.text[c] == 'A')
      && (i >= 2 ==> var fs, k := request.body.fields, (i - 2) / 2;
                     r.body.Structured? &&
                     if i % 2 == 0 then
                       r.body.fields == fs[..k] + fs[k + 1..] && r.body.fields == RemoveKey(fs, fs[k].0)
                       && Keys(r.body.fields) == Keys(fs) - {fs[k].0}
                     else
                       r.body.fields == fs[k := (fs[k].0, Flip(fs[k].1))]
                       && r.body.fields == SetKey(fs, fs[k].0, Flip(fs[k].1)))
  {
    if i >= 2 {
      var fs, k := request.body.fields, (i - 2) / 2;
      if i % 2 == 0 {
        RemoveKeyAt(fs, k);
      } else {
        SetKeyAt(fs, k, Flip(fs[k].1));
      }
    }
  }

  /** Suffixes the random source can produce for a request with this body: one
      per mutant, each four characters long. */
  predicate SuffixesFit(body: Body, suffixes: seq<string>)
  {
    |suffixes| == MutantCount(body) &&
    forall i :: 0 <= i < |suffixes| ==> |suffixes[i]| == SuffixLength
  }

  /** Every mutant of one call, in order. */
  function Mutants(request: CapturedRequest, suffixes: seq<string>): seq<CapturedRequest>
    requires SuffixesFit(request.body, suffixes)
  {
    seq(|suffixes|, i requires 0 <= i < |suffixes| => MutantAt(request, i, suffixes[i]))
  }

  /** The tags of one call are pairwise distinct. */
  lemma MutantTagsDistinct(body: Body, i: nat, j: nat)
    requires i < MutantCount(body) && j < MutantCount(body) && i != j
    ensures MutantTag(body, i) != MutantTag(body, j)
  {
    var ti, tj := MutantTag(body, i), MutantTag(body, j);
    // the tenth character tells the four kinds of tag apart
    assert |ti| > 9 && |tj| > 9;
    if ti[9] == tj[9] && i >= 2 && j >= 2 {
      var fs := body.fields;
      var ki, kj := (i - 2) / 2, (j - 2) / 2;
      assert i % 2 == j % 2;
      var p := if i % 2 == 0 then MissingFieldPrefix else TypeFlipPrefix;
      assert ki != kj;
      assert fs[ki].0 != fs[kj].0;
      assert ti == p + fs[ki].0 && tj == p + fs[kj].0;
      assert ti[|p|..] == fs[ki].0 && tj[|p|..] == fs[kj].0;
    }
  }

  /** An identifier built as original, tag and a suffix of fixed length
      determines its tag. */
  lemma IdDeterminesTag(id: string, t1: string, t2: string, s1: string, s2: string)
    requires |s1| == |s2|
    requires id + "_" + t1 + "_" + s1 == id + "_" + t2 + "_" + s2
    ensures t1 == t2
  {
    var x := id + "_" + t1 + "_" + s1;
    var y := id + "_" + t2 + "_" + s2;
    assert |t1| == |t2|;
    assert x[|id| + 1..|id| + 1 + |t1|] == t1;
    assert y[|id| + 1..|id| + 1 + |t2|] == t2;
  }

  /** All identifiers of one call differ from each other and from the original's. */
  lemma MutantIdsDistinct(request: CapturedRequest, suffixes: seq<string>, i: nat, j: nat)
    requires SuffixesFit(request.body, suffixes)
    requires i < |suffixes| && j < |suffixes|
    ensures MutantAt(request, i, suffixes[i]).requestId != request.requestId
    ensures i != j ==> MutantAt(request, i, suffixes[i]).requestId != MutantAt(request, j, suffixes[j]).requestId
  {
    if i != j {
      MutantTagsDistinct(request.body, i, j);
      if MutantAt(request, i, suffixes[i]).requestId == MutantAt(request, j, suffixes[j]).requestId {
        IdDeterminesTag(request.requestId, MutantTag(request.body, i), MutantTag(request.body, j), suffixes[i], suffixes[j]);
      }
    }
  }

  /** The mutants of one call are the mutants by index, their identifiers are
      pairwise distinct, and none of them is the original's. */
  lemma AllMutantIdsDistinct(request: CapturedRequest, suffixes: seq<string>)
    requires SuffixesFit(request.body, suffixes)
    ensures var ms := Mutants(request, suffixes);
      && |ms| == |suffixes|
      && (forall i :: 0 <= i < |ms| ==> ms[i] == MutantAt(request, i, suffixes[i]))
      && (forall i :: 0 <= i < |ms| ==> ms[i].requestId != request.requestId)
      && (forall i, j :: 0 <= i < j < |ms| ==> ms[i].requestId != ms[j].requestId)
  {
    var ms := Mutants(request, suffixes);
    forall i, j | 0 <= i < |ms| && 0 <= j < |ms|
      ensures ms[i].requestId != request.requestId
      ensures i != j ==> ms[i].requestId != ms[j].requestId
    {
      MutantIdsDistinct(request, suffixes, i, j);
    }
  }

  /** The field-drop built for the `k`-th key is mutant 2 + 2k. */
  lemma DropMutantAt(request: CapturedRequest, k: nat, suffix: string)
    requires request.body.Structured? && k < |request.body.fields|
    ensures var fs := request.body.fields;
            CreateMutant(request, Structured(RemoveKey(fs, fs[k].0)), MissingFieldPrefix + fs[k].0, suffix)
            == MutantAt(request, 2 + 2 * k, suffix)
  {
    RemoveKeyAt(request.body.fields, k);
    assert (2 + 2 * k - 2) / 2 == k && (2 + 2 * k) % 2 == 0;
  }

  /** The type flip built for the `k`-th key is mutant 3 + 2k. */
  lemma FlipMutantAt(request: CapturedRequest, k: nat, suffix: string)
    requires request.body.Structured? && k < |request.body.fields|
    ensures var fs := request.body.fields;
            CreateMutant(request, Structured(fs[k := (fs[k].0, Flip(fs[k].1))]), TypeFlipPrefix + fs[k].0, suffix)
            == MutantAt(request, 3 + 2 * k, suffix)
  {
    assert (3 + 2 * k - 2) / 2 == k && (3 + 2 * k) % 2 == 1;
  }

  /** A copy of `fs` whose `k`-th value, when it is an integer, a boolean or a
      string, is overwritten by its type flip. */
  method TypeFlipCopy(fs: Fields, k: nat) returns (flipped: Fields)
    requires k < |fs|
    ensures flipped == fs[k := (fs[k].0, Flip(fs[k].1))]
  {
    var key := fs[k].0;
    flipped := fs;
    match fs[k].1 {
      case IntVal(n) => flipped := SetKey(fs, key, StrVal(Decimal.IntToString(n)));
      case BoolVal(b) => flipped := SetKey(fs, key, StrVal(if b then "True" else "False"));
      case StrVal(_) => flipped := SetKey(fs, key, IntVal(FlipNumber));
      case Other(_) =>
    }
    SetKeyAt(fs, k, Flip(fs[k].1));
    assert fs[k := (key, fs[k].1)] == fs;
  }

  /** The two mutants every request has: the cleared body and the oversized one. */
  method BodyMutants(request: CapturedRequest, emptySuffix: string, oversizedSuffix: string)
    returns (empty: CapturedRequest, oversized: CapturedRequest)
    ensures empty == MutantAt(request, 0, emptySuffix)
    ensures oversized == MutantAt(request, 1, oversizedSuffix)
  {
    empty := CreateMutant(request, Absent, EmptyBodyTag, emptySuffix);
    var junk := Junk();
    oversized := CreateMutant(request, Raw(junk), OversizedTag, oversizedSuffix);
  }

  /** The field-drop and the type flip of the `k`-th key of a structured body. */
  method KeyMutants(request: CapturedRequest, k: nat, dropSuffix: string, flipSuffix: string)
    returns (dropMutant: CapturedRequest, flipMutant: CapturedRequest)
    requires request.body.Structured? && k < |request.body.fields|
    ensures dropMutant == MutantAt(request, 2 + 2 * k, dropSuffix)
    ensures flipMutant == MutantAt(request, 3 + 2 * k, flipSuffix)
  {
    var fs := request.body.fields;
    var key := fs[k].0;
    var dropped := RemoveKey(fs, key);
    dropMutant := CreateMutant(request, Structured(dropped), MissingFieldPrefix + key, dropSuffix);
    var flipped := TypeFlipCopy(fs, k);
    flipMutant := CreateMutant(request, Structured(flipped), TypeFlipPrefix + key, flipSuffix);
    DropMutantAt(request, k, dropSuffix);
    FlipMutantAt(request, k, flipSuffix);
  }

  /** All mutants of `request`, in order: empty body, oversized body, then for
      each key of a structured body its field-drop and its type flip. */
  method Mutate(request: CapturedRequest, suffixes: seq<string>) returns (mutants: seq<CapturedRequest>)
    requires SuffixesFit(request.body, suffixes)
    ensures mutants == Mutants(request, suffixes)
    ensures |mutants| == if request.body.Structured? then 2 + 2 * |request.body.fields| else 2
    ensures forall i :: 0 <= i < |mutants| ==> mutants[i] == MutantAt(request, i, suffixes[i])
    ensures forall i :: 0 <= i < |mutants| ==> mutants[i].requestId != request.requestId
    ensures forall i, j :: 0 <= i < j < |mutants| ==> mutants[i].requestId != mutants[j].requestId
  {
    var empty, oversized := BodyMutants(request, suffixes[0], suffixes[1]);
    mutants := [empty, oversized];
    if request.body.Structured? {
      var fs := request.body.fields;
      for k := 0 to |fs|
        invariant |mutants| == 2 + 2 * k
        invariant forall i :: 0 <= i < |mutants| ==> mutants[i] == MutantAt(request, i, suffixes[i])
      {
        var dropMutant, flipMutant := KeyMutants(request, k, suffixes[2 + 2 * k], suffixes[3 + 2 * k]);
        mutants := mutants + [dropMutant, flipMutant];
      }
    }
    AllMutantIdsDistinct(request, suffixes);
  }
}
