/** Protected-entity IDs, snapshot IDs nested in base64 layers, and the three recursive decoders that peel
    them. A wrapper (a PVC, a para-virtual PV) carries the encoded ID of what it wraps as its snapshot ID. */
module SnapshotIds {
  import opened Base64

  datatype Error = BadBase64 | BadPeId | NoSnapshot

  datatype Result<+T> = Ok(value: T) | Err(error: Error)

  /** An empty snapshot means the ID names no snapshot. */
  datatype PeId = PeId(peType: Bytes, id: Bytes, snapshot: Bytes) {
    predicate HasSnapshot() { snapshot != "" }
    predicate WellFormed() { ':' !in peType && ':' !in id && ':' !in snapshot }
  }

  const IVD: Bytes := "ivd"
  const UPLOAD_PREFIX: Bytes := "upload-"

  // ---------------------------------------------------------------------------------------------
  // Text form
  // ---------------------------------------------------------------------------------------------

  function Split(s: Bytes, sep: Byte): (parts: seq<Bytes>)
    ensures |parts| >= 1
    ensures forall i :: 0 <= i < |parts| ==> sep !in parts[i] && |parts[i]| <= |s|
    ensures |parts| > 1 <==> sep in s
    ensures |parts| >= 3 ==> |parts[2]| + 2 <= |s|
  {
    if s == [] then [[]]
    else
      var rest := Split(s[1..], sep);
      if s[0] == sep then [[]] + rest else [[s[0]] + rest[0]] + rest[1..]
  }

  function Print(p: PeId): (s: Bytes)
    ensures ':' in s
  {
    var head := p.peType + ":" + p.id;
    assert head[|p.peType|] == ':';
    if p.HasSnapshot() then head + ":" + p.snapshot else head
  }

  /** NewProtectedEntityIDFromString. */
  function Parse(s: Bytes): (r: Result<PeId>)
    ensures r.Ok? <==> ':' in s
    ensures r.Ok? ==> r.value.WellFormed() && |r.value.snapshot| < |s|
  {
    var parts := Split(s, ':');
    if |parts| > 1 then Ok(PeId(parts[0], parts[1], if |parts| == 3 then parts[2] else ""))
    else Err(BadPeId)
  }

  lemma {:induction false} SplitAtSeparator(a: Bytes, b: Bytes, sep: Byte)
    requires sep !in a
    ensures Split(a + [sep] + b, sep) == [a] + Split(b, sep)
  {
    var s := a + [sep] + b;
    if a == [] {
      assert s[1..] == b;
    } else {
      assert s[1..] == a[1..] + [sep] + b;
      SplitAtSeparator(a[1..], b, sep);
      assert [a[0]] + a[1..] == a;
    }
  }

  lemma {:induction false} SplitAtom(a: Bytes, sep: Byte)
    requires sep !in a
    ensures Split(a, sep) == [a]
  {
    if a == [] {
    } else {
      SplitAtom(a[1..], sep);
      assert [a[0]] + a[1..] == a;
    }
  }

  function Join(parts: seq<Bytes>, sep: Byte): (s: Bytes)
    requires parts != []
  {
    if |parts| == 1 then parts[0] else parts[0] + [sep] + Join(parts[1..], sep)
  }

  /** Nothing is lost by splitting. */
  lemma {:induction false} JoinSplit(s: Bytes, sep: Byte)
    ensures Join(Split(s, sep), sep) == s
  {
    if s == [] {
    } else {
      var rest := Split(s[1..], sep);
      JoinSplit(s[1..], sep);
      assert s == [s[0]] + s[1..];
      if s[0] == sep {
        assert ([[]] + rest)[1..] == rest;
      } else if |rest| > 1 {
        assert ([[s[0]] + rest[0]] + rest[1..])[1..] == rest[1..];
      }
    }
  }

  /** A string has exactly two parts if and only if it is two separator-free strings around one separator. */
  lemma {:induction false} TwoParts(s: Bytes, a: Bytes, b: Bytes, sep: Byte)
    ensures Split(s, sep) == [a, b] <==> sep !in a && sep !in b && s == a + [sep] + b
  {
    if Split(s, sep) == [a, b] {
      JoinSplit(s, sep);
      assert [a, b][1..] == [b];
      assert sep !in Split(s, sep)[0] && sep !in Split(s, sep)[1];
    }
    if sep !in a && sep !in b && s == a + [sep] + b {
      SplitAtSeparator(a, b, sep);
      SplitAtom(b, sep);
    }
  }

  /** Printing and parsing are inverse on IDs whose parts contain no separator. */
  lemma {:induction false} ParsePrint(p: PeId)
    requires p.WellFormed()
    ensures Parse(Print(p)) == Ok(p)
  {
    if p.HasSnapshot() {
      assert Print(p) == p.peType + ":" + (p.id + ":" + p.snapshot);
      SplitAtSeparator(p.peType, p.id + ":" + p.snapshot, ':');
      SplitAtSeparator(p.id, p.snapshot, ':');
      SplitAtom(p.snapshot, ':');
    } else {
      SplitAtSeparator(p.peType, p.id, ':');
      SplitAtom(p.id, ':');
    }
  }

  /** A text of one part is no ID; of four or more, the first two count and there is no snapshot. */
  lemma {:induction false} ParseOtherCounts(a: Bytes, b: Bytes, c: Bytes, rest: Bytes)
    requires ':' !in a && ':' !in b && ':' !in c
    ensures Parse(a) == Err(BadPeId)
    ensures Parse(a + ":" + b + ":" + c + ":" + rest) == Ok(PeId(a, b, ""))
  {
    SplitAtom(a, ':');
    var s := a + ":" + b + ":" + c + ":" + rest;
    assert s == a + ":" + (b + ":" + (c + ":" + rest));
    SplitAtSeparator(a, b + ":" + (c + ":" + rest), ':');
    SplitAtSeparator(b, c + ":" + rest, ':');
    SplitAtSeparator(c, rest, ':');
  }

  // ---------------------------------------------------------------------------------------------
  // The three decoders
  // ---------------------------------------------------------------------------------------------

  /** One layer: base64, then the text form. */
  function Peel(sid: Bytes): (r: Result<PeId>)
    ensures r.Ok? ==> r.value.WellFormed() && |r.value.snapshot| < |sid|
  {
    var bytes := Decode(sid);
    if bytes.None? then Err(BadBase64) else Parse(bytes.value)
  }

  predicate GoesDeeper(p: PeId) { p.HasSnapshot() && p.peType != IVD }

  /** decodePeIdFromSnapshotID of the snapshot manager. */
  function DecodePeId(sid: Bytes): (r: Result<PeId>)
    decreases |sid|
  {
    var p := Peel(sid);
    if p.Err? then Err(p.error)
    else if GoesDeeper(p.value) then DecodePeId(p.value.snapshot)
    else p
  }

  /** decodeSnapshotID of the snapshot manager. */
  function DecodeSnapshotId(sid: Bytes): (r: Result<Bytes>)
    decreases |sid|
  {
    var p := Peel(sid);
    if p.Err? then Err(p.error)
    else if GoesDeeper(p.value) then DecodeSnapshotId(p.value.snapshot)
    else Ok(p.value.snapshot)
  }

  /** decodeSnapshotID of the para-virtual type manager, which encodes what it found again. */
  function DecodeParavirt(sid: Bytes): (r: Result<Bytes>)
    decreases |sid|
  {
    var p := Peel(sid);
    if p.Err? then Err(p.error)
    else if GoesDeeper(p.value) then DecodeParavirt(p.value.snapshot)
    else Ok(Encode(Print(p.value)))
  }

  /** On every input the three succeed or fail together, for the same reason, and report the same entity. */
  lemma {:induction false} DecodersAgree(sid: Bytes)
    ensures DecodePeId(sid).Err? ==>
              var error := DecodePeId(sid).error;
              DecodeSnapshotId(sid) == Err(error) && DecodeParavirt(sid) == Err(error)
    ensures DecodePeId(sid).Ok? ==>
              var p := DecodePeId(sid).value;
              && DecodeSnapshotId(sid) == Ok(p.snapshot)
              && DecodeParavirt(sid) == Ok(Encode(Print(p)))
              && p.WellFormed() && !GoesDeeper(p) && |p.snapshot| < |sid|
    decreases |sid|
  {
    var p := Peel(sid);
    if p.Ok? && GoesDeeper(p.value) {
      DecodersAgree(p.value.snapshot);
    }
  }

  /** `chain` is what the layers of `sid` decode to, outermost first: each but the last is a wrapper, of a type other
      than ivd and with a snapshot ID that is the next layer; the last is of type ivd or has no snapshot ID. */
  ghost predicate Unwraps(sid: Bytes, chain: seq<PeId>)
    decreases |chain|
  {
    && chain != [] && Decode(sid).Some? && Parse(Decode(sid).value) == Ok(chain[0])
    && (if |chain| == 1 then chain[0].peType == "ivd" || chain[0].snapshot == ""
        else chain[0].peType != "ivd" && chain[0].snapshot != "" && Unwraps(chain[0].snapshot, chain[1..]))
  }

  lemma {:induction false} ChainDecodes(sid: Bytes, chain: seq<PeId>)
    requires Unwraps(sid, chain)
    ensures DecodePeId(sid) == Ok(chain[|chain| - 1])
    decreases |chain|
  {
    if |chain| == 1 {
    } else {
      ChainDecodes(chain[0].snapshot, chain[1..]);
    }
  }

  lemma {:induction false} DecodedHasChain(sid: Bytes) returns (chain: seq<PeId>)
    requires DecodePeId(sid).Ok?
    ensures Unwraps(sid, chain) && chain[|chain| - 1] == DecodePeId(sid).value
    decreases |sid|
  {
    var p := Peel(sid).value;
    if p.peType == "ivd" || p.snapshot == "" {
      chain := [p];
    } else {
      var rest := DecodedHasChain(p.snapshot);
      chain := [p] + rest;
      assert chain[1..] == rest;
    }
  }

  /** The decoder answers an entity if and only if the layers of the ID lead to it. */
  lemma {:induction false} DecodesIffUnwraps(sid: Bytes, p: PeId)
    ensures DecodePeId(sid) == Ok(p) <==> exists chain :: Unwraps(sid, chain) && chain[|chain| - 1] == p
  {
    if DecodePeId(sid) == Ok(p) {
      var chain := DecodedHasChain(sid);
      assert Unwraps(sid, chain);
    }
    if exists chain :: Unwraps(sid, chain) && chain[|chain| - 1] == p {
      var chain :| Unwraps(sid, chain) && chain[|chain| - 1] == p;
      ChainDecodes(sid, chain);
    }
  }

  /** Encoded text contains no separator, so it can stand as the snapshot part of an ID. */
  lemma {:induction false} EncodedFitsAnId(p: PeId)
    ensures ':' !in Encode(Print(p)) && Encode(Print(p)) != ""
  {
    EncodeAlphabet(Print(p));
    assert !InAlphabet(':');
  }

  lemma {:induction false} PeelEncoded(p: PeId)
    requires p.WellFormed()
    ensures Peel(Encode(Print(p))) == Ok(p)
  {
    DecodeEncode(Print(p));
    ParsePrint(p);
  }

  /** A wrapper is a type and an ID; nesting puts the innermost entity under any number of them. */
  datatype Wrapper = Wrapper(peType: Bytes, id: Bytes) {
    predicate Valid() { ':' !in peType && ':' !in id && peType != IVD }
  }

  function Wrap(w: Wrapper, p: PeId): (r: PeId) { PeId(w.peType, w.id, Encode(Print(p))) }

  function Nest(ws: seq<Wrapper>, p: PeId): (r: PeId)
  {
    if ws == [] then p else Wrap(ws[0], Nest(ws[1..], p))
  }

  /** At every depth of wrapping all three decoders find the innermost entity. */
  lemma {:induction false} NestedIdsDecode(ws: seq<Wrapper>, p: PeId)
    requires forall w :: w in ws ==> ':' !in w.peType && ':' !in w.id && w.peType != "ivd"
    requires p.WellFormed() && (p.peType == "ivd" || p.snapshot == "")
    ensures Nest(ws, p).WellFormed()
    ensures DecodePeId(Encode(Print(Nest(ws, p)))) == Ok(p)
    ensures DecodeSnapshotId(Encode(Print(Nest(ws, p)))) == Ok(p.snapshot)
    ensures DecodeParavirt(Encode(Print(Nest(ws, p)))) == Ok(Encode(Print(p)))
    decreases |ws|
  {
    if ws == [] {
    } else {
      assert ws[0].Valid();
      NestedIdsDecode(ws[1..], p);
      EncodedFitsAnId(Nest(ws[1..], p));
    }
    PeelEncoded(Nest(ws, p));
    DecodersAgree(Encode(Print(Nest(ws, p))));
  }

  /** Decoding and encoding again is idempotent and changes nothing for the next decoder. */
  lemma {:induction false} ParavirtIdempotent(sid: Bytes)
    ensures DecodeParavirt(sid).Ok? ==>
              && DecodeParavirt(DecodeParavirt(sid).value) == DecodeParavirt(sid)
              && DecodePeId(DecodeParavirt(sid).value) == DecodePeId(sid)
  {
    DecodersAgree(sid);
    if DecodePeId(sid).Ok? { PeelEncoded(DecodePeId(sid).value); }
  }

  // ---------------------------------------------------------------------------------------------
  // Hand-over to the supervisor cluster
  // ---------------------------------------------------------------------------------------------

  /** convertSnapshotID: the guest's ID re-rooted at the supervisor's PVC. */
  function Convert(source: PeId, ns: Bytes, name: Bytes): (r: Result<Bytes>)
  {
    var inner := DecodeParavirt(source.snapshot);
    if inner.Err? then Err(inner.error) else Ok("pvc:" + ns + "/" + name + ":" + inner.value)
  }

  lemma {:induction false} ConvertedParses(p: PeId, ns: Bytes, name: Bytes)
    requires ':' !in ns && ':' !in name
    ensures Parse("pvc:" + ns + "/" + name + ":" + Encode(Print(p)))
            == Ok(PeId("pvc", ns + "/" + name, Encode(Print(p))))
  {
    EncodedFitsAnId(p);
    var q := PeId("pvc", ns + "/" + name, Encode(Print(p)));
    assert Print(q) == "pvc:" + ns + "/" + name + ":" + Encode(Print(p));
    ParsePrint(q);
  }

  /** The supervisor reads back the PVC it was given and decodes the same entity as the guest would. */
  lemma {:induction false} ConvertKeepsTheEntity(source: PeId, ns: Bytes, name: Bytes)
    requires ':' !in ns && ':' !in name
    ensures Convert(source, ns, name).Ok? <==> DecodePeId(source.snapshot).Ok?
    ensures Convert(source, ns, name).Ok? ==>
              var q := Parse(Convert(source, ns, name).value);
              && q.Ok? && q.value.peType == "pvc" && q.value.id == ns + "/" + name
              && DecodePeId(q.value.snapshot) == DecodePeId(source.snapshot)
  {
    DecodersAgree(source.snapshot);
    if DecodePeId(source.snapshot).Ok? {
      ConvertedParses(DecodePeId(source.snapshot).value, ns, name);
      ParavirtIdempotent(source.snapshot);
    }
  }

  // ---------------------------------------------------------------------------------------------
  // Names of Upload resources
  // ---------------------------------------------------------------------------------------------

  /** uploadCRNameForSnapshotPEID: the name under which UploadSnapshot creates the resource. */
  function UploadName(component: PeId): (r: Result<Bytes>)
  {
    if !component.HasSnapshot() then Err(NoSnapshot) else Ok(UPLOAD_PREFIX + component.snapshot)
  }

  /** The name deleteSnapshot looks for. */
  function LookupName(p: PeId): (r: Result<Bytes>)
  {
    if p.peType == IVD then Ok(UPLOAD_PREFIX + p.snapshot)
    else
      var inner := DecodeSnapshotId(p.snapshot);
      if inner.Err? then Err(inner.error) else Ok(UPLOAD_PREFIX + inner.value)
  }

  lemma {:induction false} PrefixedDiffer(a: Bytes, b: Bytes)
    ensures UPLOAD_PREFIX + a == UPLOAD_PREFIX + b <==> a == b
  {
    assert (UPLOAD_PREFIX + a)[|UPLOAD_PREFIX|..] == a;
    assert (UPLOAD_PREFIX + b)[|UPLOAD_PREFIX|..] == b;
  }

  /** Delete looks for the very name create used, for a component wrapped by its PVC, exactly if the component
      is an ivd snapshot: below any other type the delete path decodes further than the create path. */
  lemma {:induction false} LookupFindsUploadIffIvd(pvc: Wrapper, component: PeId)
    requires pvc.Valid() && component.WellFormed()
    ensures var same := LookupName(Wrap(pvc, component)) == UploadName(component);
            same <==> component.peType == IVD && component.HasSnapshot()
  {
    PeelEncoded(component);
    if GoesDeeper(component) {
      DecodersAgree(component.snapshot);
      if DecodePeId(component.snapshot).Ok? {
        PrefixedDiffer(DecodePeId(component.snapshot).value.snapshot, component.snapshot);
      }
    }
  }

  /** The ID of an ivd snapshot that is not wrapped, as older backups have it, names the same Upload. */
  lemma {:induction false} UnwrappedLookup(p: PeId)
    requires p.peType == "ivd" && p.snapshot != ""
    ensures LookupName(p) == UploadName(p) == Ok("upload-" + p.snapshot)
  {}

  /** Distinct ivd snapshots never share an Upload. */
  lemma {:induction false} UploadNamesDistinct(a: PeId, b: PeId)
    requires a.HasSnapshot() && b.HasSnapshot()
    ensures UploadName(a) == UploadName(b) <==> a.snapshot == b.snapshot
  {
    PrefixedDiffer(a.snapshot, b.snapshot);
  }
}
