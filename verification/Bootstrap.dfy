/** The LinkConfig among a list of patches, and among the documents of a bootstrap secret. */
module Bootstrap {
  import opened Outcomes
  import opened LinkConfig

  /** A patch is a text: `Yaml(doc, layout)` parses to `doc`, and `layout` tells texts with
      the same meaning apart. Marshalling gives layout 0. */
  datatype Patch = Unparsed(text: string) | Yaml(doc: Doc, layout: nat)

  /** One `---` section of a stream: a mapping, nothing at all, or something that does not
      decode into a mapping. */
  datatype Section = Mapping(doc: Doc) | Blank | Broken

  datatype Bytes = Bytes(layout: nat, sections: seq<Section>)

  datatype BootstrapError = Undecodable | Unspliceable(error: SpliceError)

  predicate Targets(patch: Patch, interfaceName: Text) {
    patch.Yaml? && IsLinkConfig(patch.doc, interfaceName)
  }

  /** The position of the first LinkConfig of that name, `|patches|` when there is none. */
  function FirstTarget(patches: seq<Patch>, interfaceName: Text): (i: nat)
    ensures i <= |patches|
    ensures forall j :: 0 <= j < i ==> !Targets(patches[j], interfaceName)
    ensures i < |patches| ==> Targets(patches[i], interfaceName)
  {
    if patches == [] || Targets(patches[0], interfaceName) then 0
    else 1 + FirstTarget(patches[1..], interfaceName)
  }

  function Upsert(patches: seq<Patch>, interfaceName: Text, address: Text): Result<seq<Patch>, SpliceError> {
    var i := FirstTarget(patches, interfaceName);
    var before := if i < |patches| then patches[i].doc else map[];
    match Splice(before, interfaceName, address)
    case Err(e) => Err(e)
    case Ok(doc) => Ok(if i == |patches| then patches + [Yaml(doc, 0)]
                       else if doc == before then patches
                       else patches[i := Yaml(doc, 0)])
  }

  lemma FirstTargetUnique(patches: seq<Patch>, interfaceName: Text, i: nat)
    requires i <= |patches|
    requires forall j :: 0 <= j < i ==> !Targets(patches[j], interfaceName)
    requires i < |patches| ==> Targets(patches[i], interfaceName)
    ensures FirstTarget(patches, interfaceName) == i
  {
  }

  /** An upsert touches one position, the first LinkConfig of the name or one past the end,
      and that position then holds the spliced document. */
  lemma UpsertIsLocal(patches: seq<Patch>, interfaceName: Text, address: Text)
    requires Upsert(patches, interfaceName, address).Ok?
    ensures var out := Upsert(patches, interfaceName, address).value;
            var i := FirstTarget(patches, interfaceName);
            var before := if i < |patches| then patches[i].doc else map[];
            && |out| == (if i < |patches| then |patches| else |patches| + 1)
            && (forall j | 0 <= j < |patches| && j != i :: out[j] == patches[j])
            && out[i].Yaml? && Ok(out[i].doc) == Splice(before, interfaceName, address)
            && FirstTarget(out, interfaceName) == i
  {
    var out := Upsert(patches, interfaceName, address).value;
    var i := FirstTarget(patches, interfaceName);
    var before := if i < |patches| then patches[i].doc else map[];
    SpliceSpec(before, interfaceName, address.prefix);
    assert out[i].doc == Splice(before, interfaceName, address).value;
    FirstTargetUnique(out, interfaceName, i);
  }

  /** A second upsert of the same address changes nothing. */
  lemma UpsertIdempotent(patches: seq<Patch>, interfaceName: Text, address: Text)
    requires Upsert(patches, interfaceName, address).Ok?
    ensures var out := Upsert(patches, interfaceName, address).value;
            Upsert(out, interfaceName, address) == Ok(out)
  {
    var i := FirstTarget(patches, interfaceName);
    var before := if i < |patches| then patches[i].doc else map[];
    var out := Upsert(patches, interfaceName, address).value;
    UpsertIsLocal(patches, interfaceName, address);
    SpliceIdempotent(before, interfaceName, address.prefix);
    assert Splice(out[i].doc, interfaceName, address) == Ok(out[i].doc);
  }

  method UpsertLinkConfigPatch(patches: seq<Patch>, interfaceName: Text, address: Text)
    returns (r: Result<seq<Patch>, SpliceError>, changed: bool)
    ensures r == Upsert(patches, interfaceName, address)
    ensures changed <==> r.Ok? && r.value != patches
  {
    var updated := patches;
    for i := 0 to |patches|
      invariant updated == patches
      invariant forall j :: 0 <= j < i ==> !Targets(patches[j], interfaceName)
    {
      if updated[i].Yaml? && IsLinkConfig(updated[i].doc, interfaceName) {
        FirstTargetUnique(patches, interfaceName, i);
        var document := new Document(updated[i].doc);
        var error, docChanged := document.SetLinkConfigAddress(interfaceName, address);
        if error.Some? {
          return Err(error.value), false;
        }
        if !docChanged {
          return Ok(patches), false;
        }
        updated := updated[i := Yaml(document.fields, 0)];
        return Ok(updated), true;
      }
    }
    FirstTargetUnique(patches, interfaceName, |patches|);
    var document := new Document(map[]);
    var error, _ := document.SetLinkConfigAddress(interfaceName, address);
    if error.Some? {
      return Err(error.value), false;
    }
    updated := updated + [Yaml(document.fields, 0)];
    return Ok(updated), true;
  }

  // ----- byte streams -----

  /** The non-empty mappings of a stream, an error when a section is not a mapping. */
  function DecodeSections(sections: seq<Section>): Result<seq<Doc>, BootstrapError> {
    if sections == [] then Ok([]) else
    var last := sections[|sections| - 1];
    match DecodeSections(sections[..|sections| - 1])
    case Err(e) => Err(e)
    case Ok(docs) =>
      match last
      case Broken => Err(Undecodable)
      case Blank => Ok(docs)
      case Mapping(doc) => Ok(if doc == map[] then docs else docs + [doc])
  }

  function Decode(data: Bytes): Result<seq<Doc>, BootstrapError> {
    DecodeSections(data.sections)
  }

  function Encode(docs: seq<Doc>): Bytes {
    Bytes(0, seq(|docs|, i requires 0 <= i < |docs| => Mapping(docs[i])))
  }

  function Marshal(docs: seq<Doc>): seq<Patch> {
    seq(|docs|, i requires 0 <= i < |docs| => Yaml(docs[i], 0))
  }

  predicate AllYaml(patches: seq<Patch>) {
    forall i :: 0 <= i < |patches| ==> patches[i].Yaml?
  }

  function Docs(patches: seq<Patch>): (docs: seq<Doc>)
    requires AllYaml(patches)
    ensures |docs| == |patches|
  {
    seq(|patches|, i requires 0 <= i < |patches| => patches[i].doc)
  }

  function UpsertData(data: Bytes, interfaceName: Text, address: Text): Result<Bytes, BootstrapError> {
    match Decode(data)
    case Err(e) => Err(e)
    case Ok(docs) =>
      match Upsert(Marshal(docs), interfaceName, address)
      case Err(e) => Err(Unspliceable(e))
      case Ok(patches) =>
        if patches == Marshal(docs) then Ok(data)
        else if AllYaml(patches) then Ok(Encode(Docs(patches)))
        else Err(Undecodable)
  }

  /** Writing documents and reading them back gives the non-empty ones. */
  lemma {:induction false} DecodeEncode(docs: seq<Doc>)
    requires forall i :: 0 <= i < |docs| ==> docs[i] != map[]
    ensures Decode(Encode(docs)) == Ok(docs)
  {
    if docs != [] {
      var n := |docs| - 1;
      DecodeEncode(docs[..n]);
      assert Encode(docs).sections[..n] == Encode(docs[..n]).sections;
      assert docs == docs[..n] + [docs[n]];
    }
  }

  lemma {:induction false} DecodedNonEmpty(sections: seq<Section>)
    requires DecodeSections(sections).Ok?
    ensures var docs := DecodeSections(sections).value;
            forall i :: 0 <= i < |docs| ==> docs[i] != map[]
  {
    if sections != [] {
      DecodedNonEmpty(sections[..|sections| - 1]);
    }
  }

  /** The documents read back from updated data are the old documents with one of them
      spliced, or one appended. */
  lemma UpsertDataDocs(data: Bytes, interfaceName: Text, address: Text)
    requires UpsertData(data, interfaceName, address).Ok?
    ensures var docs := Decode(data).value;
            var out := UpsertData(data, interfaceName, address).value;
            && Decode(out).Ok?
            && Upsert(Marshal(docs), interfaceName, address) == Ok(Marshal(Decode(out).value))
            && (out == data <==> Decode(out).value == docs)
  {
    var docs := Decode(data).value;
    var patches := Upsert(Marshal(docs), interfaceName, address).value;
    DecodedNonEmpty(data.sections);
    if patches != Marshal(docs) {
      UpsertNonEmpty(Marshal(docs), interfaceName, address);
      DecodeEncode(Docs(patches));
      UpsertMarshalled(docs, interfaceName, address);
      assert Marshal(Docs(patches)) == patches;
    }
  }

  lemma UpsertMarshalled(docs: seq<Doc>, interfaceName: Text, address: Text)
    requires Upsert(Marshal(docs), interfaceName, address).Ok?
    ensures var out := Upsert(Marshal(docs), interfaceName, address).value;
            AllYaml(out) && Marshal(Docs(out)) == out
  {
  }

  lemma UpsertNonEmpty(patches: seq<Patch>, interfaceName: Text, address: Text)
    requires AllYaml(patches) && forall i :: 0 <= i < |patches| ==> patches[i].doc != map[]
    requires Upsert(patches, interfaceName, address).Ok?
    ensures var out := Upsert(patches, interfaceName, address).value;
            AllYaml(out) && forall i :: 0 <= i < |out| ==> out[i].doc != map[]
  {
    var i := FirstTarget(patches, interfaceName);
    SpliceSpec(if i < |patches| then patches[i].doc else map[], interfaceName, address.prefix);
  }

  // ----- the update document by document -----

  /** `kept` lists in increasing order the sections that hold a mapping with a key. */
  ghost predicate DocumentsAt(sections: seq<Section>, kept: seq<nat>) {
    && (forall i, j | 0 <= i < j < |kept| :: kept[i] < kept[j])
    && (forall i | 0 <= i < |kept| :: kept[i] < |sections|)
    && (forall n | 0 <= n < |sections| :: n in kept <==> sections[n].Mapping? && sections[n].doc.Keys != {})
  }

  /** Reading a stream fails exactly if one of its sections is broken, and else gives the
      mappings that have a key, in their order. */
  lemma {:induction false} DecodeSpec(sections: seq<Section>) returns (kept: seq<nat>)
    ensures DecodeSections(sections).Err? <==> exists n :: 0 <= n < |sections| && sections[n].Broken?
    ensures DecodeSections(sections).Ok? ==>
              && DocumentsAt(sections, kept)
              && DecodeSections(sections).value == seq(|kept|, i requires 0 <= i < |kept| =>
                   if kept[i] < |sections| && sections[kept[i]].Mapping? then sections[kept[i]].doc else map[])
  {
    if sections == [] {
      return [];
    }
    var n := |sections| - 1;
    kept := DecodeSpec(sections[..n]);
    if DecodeSections(sections).Ok? && sections[n].Mapping? && sections[n].doc.Keys != {} {
      assert sections[n].doc != map[];
      kept := kept + [n];
    }
  }

  /** The document is a LinkConfig of that name; a missing name counts as the empty one. */
  predicate ForInterface(doc: Doc, interfaceName: Text) {
    && "kind" in doc && doc["kind"] == Str(Plain("LinkConfig"))
    && (if "name" in doc then doc["name"] == Str(interfaceName) else interfaceName == Plain(""))
  }

  lemma TargetsForInterface(patch: Patch, interfaceName: Text)
    ensures Targets(patch, interfaceName) <==> patch.Yaml? && ForInterface(patch.doc, interfaceName)
  {
  }

  /** An upsert leaves everything alone but the first LinkConfig of the name, which it splices;
      if there is none it appends the splice of an empty document. */
  lemma UpsertSpec(patches: seq<Patch>, interfaceName: Text, address: Text) returns (i: nat)
    ensures i <= |patches|
    ensures forall j | 0 <= j < i :: !(patches[j].Yaml? && ForInterface(patches[j].doc, interfaceName))
    ensures i < |patches| ==> patches[i].Yaml? && ForInterface(patches[i].doc, interfaceName)
    ensures var spliced := Splice(if i < |patches| then patches[i].doc else map[], interfaceName, address);
            match Upsert(patches, interfaceName, address)
            case Err(e) => spliced == Err(e)
            case Ok(out) =>
              && |out| == (if i < |patches| then |patches| else |patches| + 1)
              && (forall j | 0 <= j < |patches| && j != i :: out[j] == patches[j])
              && out[i].Yaml? && spliced == Ok(out[i].doc)
              && (i < |patches| && spliced == Ok(patches[i].doc) ==> out == patches)
  {
    i := FirstTarget(patches, interfaceName);
    forall j | 0 <= j < |patches|
      ensures Targets(patches[j], interfaceName) <==> patches[j].Yaml? && ForInterface(patches[j].doc, interfaceName)
    {
      TargetsForInterface(patches[j], interfaceName);
    }
  }

  /** `after` is `docs` with the document at `i`, or a new one at the end, replaced by `doc`. */
  predicate OneReplaced(docs: seq<Doc>, i: nat, doc: Doc, after: seq<Doc>) {
    && i <= |docs| && |after| == (if i < |docs| then |docs| else |docs| + 1)
    && (forall j | 0 <= j < |docs| && j != i :: after[j] == docs[j])
    && after[i] == doc
  }

  /** The same for bytes: an update of data that reads as `docs` fails with the splice of the
      first LinkConfig of the name, or leaves data that reads as `docs` with that one spliced. */
  lemma UpdateSpec(data: Bytes, interfaceName: Text, address: Text) returns (i: nat)
    requires Decode(data).Ok?
    ensures var docs := Decode(data).value;
            && i <= |docs|
            && (forall j | 0 <= j < i :: !ForInterface(docs[j], interfaceName))
            && (i < |docs| ==> ForInterface(docs[i], interfaceName))
            && var spliced := Splice(if i < |docs| then docs[i] else map[], interfaceName, address);
               match UpsertData(data, interfaceName, address)
               case Err(e) => spliced.Err? && e == Unspliceable(spliced.error)
               case Ok(bytes) =>
                 spliced.Ok? && Decode(bytes).Ok? && OneReplaced(docs, i, spliced.value, Decode(bytes).value)
  {
    var docs := Decode(data).value;
    i := UpsertSpec(Marshal(docs), interfaceName, address);
    forall j | 0 <= j < i ensures !ForInterface(docs[j], interfaceName) {
      assert Marshal(docs)[j] == Yaml(docs[j], 0);
    }
    if UpsertData(data, interfaceName, address).Ok? {
      UpsertDataDocs(data, interfaceName, address);
      UnmarshalReplaced(docs, i, Decode(UpsertData(data, interfaceName, address).value).value,
                        Splice(if i < |docs| then docs[i] else map[], interfaceName, address).value);
    } else {
      UpsertEncodes(docs, interfaceName, address);
    }
  }

  lemma UnmarshalReplaced(docs: seq<Doc>, i: nat, after: seq<Doc>, doc: Doc)
    requires i <= |docs| && |after| == (if i < |docs| then |docs| else |docs| + 1)
    requires forall j | 0 <= j < |docs| && j != i :: Marshal(after)[j] == Marshal(docs)[j]
    requires Marshal(after)[i].Yaml? && Marshal(after)[i].doc == doc
    ensures OneReplaced(docs, i, doc, after)
  {
    forall j | 0 <= j < |docs| && j != i ensures after[j] == docs[j] {
      assert Marshal(after)[j] == Marshal(docs)[j];
    }
  }

  /** Of what a stream reads as, nothing fails to be written back. */
  lemma UpsertEncodes(docs: seq<Doc>, interfaceName: Text, address: Text)
    ensures var r := Upsert(Marshal(docs), interfaceName, address);
            r.Ok? ==> AllYaml(r.value)
  {
  }

  /** Updating updated bootstrap data gives back the very same bytes. */
  lemma UpsertDataIdempotent(data: Bytes, interfaceName: Text, address: Text)
    requires UpsertData(data, interfaceName, address).Ok?
    ensures var out := UpsertData(data, interfaceName, address).value;
            UpsertData(out, interfaceName, address) == Ok(out)
  {
    UpsertDataDocs(data, interfaceName, address);
    UpsertIdempotent(Marshal(Decode(data).value), interfaceName, address);
  }

  method DecodeYAMLDocuments(data: Bytes) returns (r: Result<seq<Doc>, BootstrapError>)
    ensures r == Decode(data)
  {
    var sections := data.sections;
    var result: seq<Doc> := [];
    for i := 0 to |sections|
      invariant DecodeSections(sections[..i]) == Ok(result)
    {
      assert sections[..i + 1][..i] == sections[..i];
      match sections[i]
      case Broken =>
        BrokenPrefix(sections, i + 1);
        return Err(Undecodable);
      case Blank =>
      case Mapping(document) =>
        if |document| != 0 {
          result := result + [document];
        }
    }
    assert sections[..|sections|] == sections;
    return Ok(result);
  }

  lemma {:induction false} BrokenPrefix(sections: seq<Section>, n: nat)
    requires n <= |sections| && DecodeSections(sections[..n]) == Err(Undecodable)
    ensures DecodeSections(sections) == Err(Undecodable)
    decreases |sections|
  {
    if n < |sections| {
      assert sections[..|sections| - 1][..n] == sections[..n];
      BrokenPrefix(sections[..|sections| - 1], n);
    } else {
      assert sections[..n] == sections;
    }
  }

  method EncodeYAMLDocuments(documents: seq<Patch>) returns (r: Result<Bytes, BootstrapError>)
    ensures r == if AllYaml(documents) then Ok(Encode(Docs(documents))) else Err(Undecodable)
  {
    var buffer: seq<Section> := [];
    for i := 0 to |documents|
      invariant AllYaml(documents[..i])
      invariant |buffer| == i && forall j :: 0 <= j < i ==> documents[j].Yaml? && buffer[j] == Mapping(documents[j].doc)
    {
      if !documents[i].Yaml? {
        return Err(Undecodable);
      }
      buffer := buffer + [Mapping(documents[i].doc)];
    }
    assert AllYaml(documents) && buffer == Encode(Docs(documents)).sections;
    return Ok(Bytes(0, buffer));
  }

  method UpsertLinkConfigInBootstrapData(data: Bytes, interfaceName: Text, address: Text)
    returns (r: Result<Bytes, BootstrapError>, changed: bool)
    ensures r == UpsertData(data, interfaceName, address)
    ensures changed <==> r.Ok? && r.value != data
  {
    var decoded := DecodeYAMLDocuments(data);
    if decoded.Err? {
      return Err(decoded.error), false;
    }
    var documents := decoded.value;
    var stringDocs: seq<Patch> := [];
    for i := 0 to |documents|
      invariant stringDocs == Marshal(documents[..i])
    {
      stringDocs := stringDocs + [Yaml(documents[i], 0)];
    }
    assert documents[..|documents|] == documents;
    var updated, docsChanged := UpsertLinkConfigPatch(stringDocs, interfaceName, address);
    if updated.Err? {
      return Err(Unspliceable(updated.error)), false;
    }
    if !docsChanged {
      return Ok(data), false;
    }
    r := EncodeYAMLDocuments(updated.value);
    changed := r.Ok?;
    if r.Ok? {
      UpsertDataDocs(data, interfaceName, address);
    }
  }
}
