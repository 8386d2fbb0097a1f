/** YAML documents as finite maps, and the splice of a node address into a Talos
    LinkConfig document. */
module LinkConfig {
  import opened Outcomes
  import opened Ipv4

  /** A string, told apart by what prefix parsing makes of it: `Cidr(p)` is the one text
      that parses to the IPv4 prefix `p`, `Plain` is any other text. */
  datatype Text = Plain(text: string) | Cidr(prefix: Prefix)

  datatype Value =
    | Null
    | Bool(flag: bool)
    | Number(literal: string)
    | Str(text: Text)
    | List(items: seq<Value>)
    | Map(fields: map<string, Value>)

  type Doc = map<string, Value>

  datatype SpliceError = NotAPrefix | BadAddresses | BadUp

  const API_VERSION := Str(Plain("v1alpha1"))
  const KIND := Str(Plain("LinkConfig"))

  /** Reading `addresses` copies it deeply, and the copy refuses Go integers. */
  predicate Copyable(value: Value) {
    match value
    case Number(_) => false
    case List(items) => forall i | 0 <= i < |items| :: Copyable(items[i])
    case Map(fields) => forall k | k in fields :: Copyable(fields[k])
    case _ => true
  }

  /** The prefix an entry of `addresses` names, if it names one. */
  function EntryPrefix(entry: Value): Option<Prefix> {
    if entry.Map? && "address" in entry.fields && entry.fields["address"].Str? && entry.fields["address"].text.Cidr?
    then Some(entry.fields["address"].text.prefix)
    else None
  }

  /** Another prefix of the desired length inside the desired prefix's subnet. */
  predicate Stale(entry: Value, desired: Prefix) {
    match EntryPrefix(entry)
    case Some(p) => p != desired && p.bits == desired.bits && desired.Masked().Contains(p.addr)
    case None => false
  }

  function Keep(addresses: seq<Value>, desired: Prefix): seq<Value> {
    if addresses == [] then [] else
    var rest := Keep(addresses[..|addresses| - 1], desired);
    var last := addresses[|addresses| - 1];
    if Stale(last, desired) then rest else rest + [last]
  }

  predicate Names(addresses: seq<Value>, desired: Prefix) {
    exists i :: 0 <= i < |addresses| && EntryPrefix(addresses[i]) == Some(desired)
  }

  function AddressEntry(desired: Prefix): Value {
    Map(map["address" := Str(Cidr(desired))])
  }

  function NextAddresses(addresses: seq<Value>, desired: Prefix): seq<Value> {
    Keep(addresses, desired) + if Names(addresses, desired) then [] else [AddressEntry(desired)]
  }

  /** The entries of `addresses`, none when the key is missing. */
  function Addresses(doc: Doc): Result<seq<Value>, SpliceError> {
    if "addresses" !in doc then Ok([])
    else if doc["addresses"].List? && Copyable(doc["addresses"]) then Ok(doc["addresses"].items)
    else Err(BadAddresses)
  }

  /** The spliced document. */
  function Splice(doc: Doc, interfaceName: Text, address: Text): Result<Doc, SpliceError> {
    if !address.Cidr? then Err(NotAPrefix) else
    match Addresses(doc)
    case Err(e) => Err(e)
    case Ok(addresses) =>
      if "up" in doc && !doc["up"].Bool? then Err(BadUp) else
      Ok(WithFields(doc, interfaceName, if "up" in doc then doc["up"] else Bool(true),
                    NextAddresses(addresses, address.prefix)))
  }

  // ----- what the splice keeps and what it removes -----

  /** `indices` lists in increasing order the positions of `s` that satisfy `p`. */
  ghost predicate Positions(s: seq<Value>, p: Value -> bool, indices: seq<nat>) {
    && (forall i, j | 0 <= i < j < |indices| :: indices[i] < indices[j])
    && (forall i | 0 <= i < |indices| :: indices[i] < |s|)
    && (forall n | 0 <= n < |s| :: p(s[n]) <==> n in indices)
  }

  /** The kept entries are the entries that are not stale, each once and in their order. */
  lemma {:induction false} KeepSelects(addresses: seq<Value>, desired: Prefix) returns (indices: seq<nat>)
    ensures Positions(addresses, e => !Stale(e, desired), indices)
    ensures |Keep(addresses, desired)| == |indices|
    ensures forall i | 0 <= i < |indices| :: Keep(addresses, desired)[i] == addresses[indices[i]]
  {
    if addresses == [] {
      return [];
    }
    var n := |addresses| - 1;
    indices := KeepSelects(addresses[..n], desired);
    if !Stale(addresses[n], desired) {
      indices := indices + [n];
    }
  }

  lemma {:induction false} KeepMembers(addresses: seq<Value>, desired: Prefix)
    ensures forall e :: e in Keep(addresses, desired) <==> e in addresses && !Stale(e, desired)
    ensures |Keep(addresses, desired)| <= |addresses|
    ensures |Keep(addresses, desired)| == |addresses| ==> Keep(addresses, desired) == addresses
    ensures (forall e | e in addresses :: !Stale(e, desired)) ==> Keep(addresses, desired) == addresses
  {
    if addresses != [] {
      var n := |addresses| - 1;
      KeepMembers(addresses[..n], desired);
      assert addresses == addresses[..n] + [addresses[n]];
    }
  }

  lemma NamesMember(addresses: seq<Value>, desired: Prefix)
    ensures Names(addresses, desired) <==> exists e :: e in addresses && EntryPrefix(e) == Some(desired)
  {
    if e :| e in addresses && EntryPrefix(e) == Some(desired) {
      var i :| 0 <= i < |addresses| && addresses[i] == e;
    }
  }

  /** The new entries name the desired prefix and no other prefix of that length in its
      subnet; every other old entry stays, and only the desired entry is ever added. */
  lemma NextAddressesSpec(addresses: seq<Value>, desired: Prefix)
    ensures var next := NextAddresses(addresses, desired);
            && Names(next, desired)
            && (forall e | e in next :: !Stale(e, desired))
            && (forall e | e in addresses && !Stale(e, desired) :: e in next)
            && (forall e | e in next :: e in addresses || e == AddressEntry(desired))
  {
    var next := NextAddresses(addresses, desired);
    KeepMembers(addresses, desired);
    NamesMember(addresses, desired);
    assert EntryPrefix(AddressEntry(desired)) == Some(desired);
    if Names(addresses, desired) {
      var e :| e in addresses && EntryPrefix(e) == Some(desired);
      assert e in next;
    } else {
      assert next[|next| - 1] == AddressEntry(desired);
    }
    NamesMember(next, desired);
  }

  lemma NextAddressesSame(addresses: seq<Value>, desired: Prefix)
    ensures NextAddresses(addresses, desired) == addresses
       <==> Names(addresses, desired) && !exists e :: e in addresses && Stale(e, desired)
  {
    NextAddressesSpec(addresses, desired);
    KeepMembers(addresses, desired);
  }

  lemma NextAddressesTwice(addresses: seq<Value>, desired: Prefix)
    ensures NextAddresses(NextAddresses(addresses, desired), desired) == NextAddresses(addresses, desired)
  {
    NextAddressesSpec(addresses, desired);
    NextAddressesSame(NextAddresses(addresses, desired), desired);
  }

  /** What a successful splice promises about the document. */
  lemma SpliceSpec(doc: Doc, interfaceName: Text, desired: Prefix)
    requires Splice(doc, interfaceName, Cidr(desired)).Ok?
    ensures var out := Splice(doc, interfaceName, Cidr(desired)).value;
            var before := Addresses(doc).value;
            && Addresses(out) == Ok(NextAddresses(before, desired))
            && IsLinkConfig(out, interfaceName)
            && out["apiVersion"] == API_VERSION
            && out["up"] == (if "up" in doc then doc["up"] else Bool(true))
            && out.Keys == doc.Keys + {"apiVersion", "kind", "name", "up", "addresses"}
            && (forall k | k in doc && k !in {"apiVersion", "kind", "name", "up", "addresses"} :: out[k] == doc[k])
  {
    var out := Splice(doc, interfaceName, Cidr(desired)).value;
    var before := Addresses(doc).value;
    NextAddressesCopyable(before, desired);
    assert out["addresses"] == List(NextAddresses(before, desired));
  }

  lemma NextAddressesCopyable(addresses: seq<Value>, desired: Prefix)
    requires forall e | e in addresses :: Copyable(e)
    ensures Copyable(List(NextAddresses(addresses, desired)))
  {
    KeepMembers(addresses, desired);
    var next := NextAddresses(addresses, desired);
    assert Copyable(Str(Cidr(desired)));
    assert Copyable(AddressEntry(desired));
    forall i | 0 <= i < |next| ensures Copyable(next[i]) {
      assert next[i] in next;
    }
  }

  /** Splicing the result again leaves it as it is. */
  lemma SpliceIdempotent(doc: Doc, interfaceName: Text, desired: Prefix)
    requires Splice(doc, interfaceName, Cidr(desired)).Ok?
    ensures var out := Splice(doc, interfaceName, Cidr(desired)).value;
            Splice(out, interfaceName, Cidr(desired)) == Ok(out)
  {
    var before := Addresses(doc).value;
    var up := if "up" in doc then doc["up"] else Bool(true);
    var next := NextAddresses(before, desired);
    NextAddressesCopyable(before, desired);
    NextAddressesTwice(before, desired);
    SpliceOfSpliced(doc, interfaceName, up, next, desired);
    FieldsTwice(doc, interfaceName, up, next);
  }

  lemma SpliceOfSpliced(doc: Doc, interfaceName: Text, up: Value, addresses: seq<Value>, desired: Prefix)
    requires up.Bool? && Copyable(List(addresses))
    ensures var out := WithFields(doc, interfaceName, up, addresses);
            Splice(out, interfaceName, Cidr(desired))
            == Ok(WithFields(out, interfaceName, up, NextAddresses(addresses, desired)))
  {
    var out := WithFields(doc, interfaceName, up, addresses);
    assert out["up"] == up && out["addresses"] == List(addresses);
  }

  lemma FieldsTwice(doc: Doc, interfaceName: Text, up: Value, addresses: seq<Value>)
    ensures var out := WithFields(doc, interfaceName, up, addresses);
            WithFields(out, interfaceName, up, addresses) == out
  {
  }

  // ----- the splice entry by entry -----

  /** The entry is a mapping whose `address` is the text of `p`. */
  predicate Says(entry: Value, p: Prefix) {
    entry.Map? && "address" in entry.fields && entry.fields["address"] == Str(Cidr(p))
  }

  /** The entry names no prefix, the desired one, one of another length, or one whose address
      lies outside the desired address's block of 2^h addresses. */
  ghost predicate Stays(entry: Value, desired: Prefix) {
    forall p | Says(entry, p) ::
      || p == desired
      || p.bits != desired.bits
      || ToUint32(p.addr) < ToUint32(desired.Masked().addr)
      || ToUint32(p.addr) >= ToUint32(desired.Masked().addr) + Pow2(32 - desired.bits)
  }

  lemma InBlock(desired: Prefix, ip: Addr)
    ensures var network := ToUint32(desired.Masked().addr);
            desired.Masked().Contains(ip) <==> network <= ToUint32(ip) < network + Pow2(32 - desired.bits)
  {
    MaskedTwice(desired, ip);
    PrefixMembers(desired, ToUint32(ip));
    FromToUint32(ip);
  }

  lemma StaysNotStale(entry: Value, desired: Prefix)
    ensures Stays(entry, desired) <==> !Stale(entry, desired)
  {
    match EntryPrefix(entry)
    case Some(p) =>
      assert forall q :: Says(entry, q) <==> q == p;
      InBlock(desired, p.addr);
    case None =>
      assert forall q :: !Says(entry, q);
  }

  /** The entries a document lists under `addresses`. */
  function Listed(doc: Doc): seq<Value> {
    if "addresses" in doc && doc["addresses"].List? then doc["addresses"].items else []
  }

  /** The spliced list: the old entries that stay, at the positions `kept`, in their order, and
      after them, if none of them says the desired prefix, one that does. */
  lemma SpliceEntries(doc: Doc, interfaceName: Text, desired: Prefix) returns (kept: seq<nat>)
    requires Splice(doc, interfaceName, Cidr(desired)).Ok?
    ensures Positions(Listed(doc), e => Stays(e, desired), kept)
    ensures var before, after := Listed(doc), Listed(Splice(doc, interfaceName, Cidr(desired)).value);
            && |kept| <= |after|
            && (forall i | 0 <= i < |kept| :: after[i] == before[kept[i]])
            && if exists i :: 0 <= i < |before| && Says(before[i], desired) then |after| == |kept|
               else |after| == |kept| + 1 && after[|kept|] == Map(map["address" := Str(Cidr(desired))])
  {
    var before := Listed(doc);
    assert before == Addresses(doc).value;
    kept := KeepSelects(before, desired);
    forall n | 0 <= n < |before| ensures Stays(before[n], desired) <==> n in kept {
      StaysNotStale(before[n], desired);
      assert (e => !Stale(e, desired))(before[n]) <==> n in kept;
    }
    assert Names(before, desired) <==> exists i :: 0 <= i < |before| && Says(before[i], desired) by {
      assert forall i | 0 <= i < |before| :: EntryPrefix(before[i]) == Some(desired) <==> Says(before[i], desired);
    }
  }

  /** The other fields of the spliced document, literally. */
  lemma SpliceFields(doc: Doc, interfaceName: Text, desired: Prefix)
    requires Splice(doc, interfaceName, Cidr(desired)).Ok?
    ensures var out := Splice(doc, interfaceName, Cidr(desired)).value;
            && out.Keys == doc.Keys + {"apiVersion", "kind", "name", "up", "addresses"}
            && out["apiVersion"] == Str(Plain("v1alpha1")) && out["kind"] == Str(Plain("LinkConfig"))
            && out["name"] == Str(interfaceName) && out["addresses"].List?
            && (if "up" in doc then out["up"] == doc["up"] else out["up"] == Bool(true))
            && (forall k | k in doc && k !in {"apiVersion", "kind", "name", "up", "addresses"} :: out[k] == doc[k])
  {
    SpliceSpec(doc, interfaceName, desired);
  }

  /** A splice is refused exactly if the address is no prefix, `addresses` is there but is no
      list or cannot be copied, or `up` is there but is no truth value. */
  lemma SpliceRefused(doc: Doc, interfaceName: Text, address: Text)
    ensures Splice(doc, interfaceName, address).Err?
       <==> || (forall p :: address != Cidr(p))
            || ("addresses" in doc && !(exists items :: doc["addresses"] == List(items) && Copyable(List(items))))
            || ("up" in doc && doc["up"] != Bool(true) && doc["up"] != Bool(false))
  {
  }

  /** The string under `key`, the empty string when the key is missing, nothing when it
      holds another kind of value. */
  function StringField(doc: Doc, key: string): Option<Text> {
    if key !in doc then Some(Plain(""))
    else if doc[key].Str? then Some(doc[key].text)
    else None
  }

  predicate IsLinkConfig(doc: Doc, interfaceName: Text) {
    StringField(doc, "kind") == Some(Plain("LinkConfig")) && StringField(doc, "name") == Some(interfaceName)
  }

  /** A decoded document, which the splice changes in place. */
  class Document {
    var fields: Doc

    constructor (doc: Doc)
      ensures fields == doc
    {
      fields := doc;
    }

    /** Nothing is written before every check has passed. `changed` is worked out from the
        separate checks of the code and says exactly whether the document differs. */
    method SetLinkConfigAddress(interfaceName: Text, address: Text) returns (error: Option<SpliceError>, changed: bool)
      modifies this
      ensures match Splice(old(fields), interfaceName, address)
              case Ok(doc) => error == None && fields == doc && (changed <==> fields != old(fields))
              case Err(e) => error == Some(e) && fields == old(fields) && !changed
    {
      changed := false;
      if !address.Cidr? {
        return Some(NotAPrefix), false;
      }
      var desired := address.prefix;

      var addresses := [];
      if "addresses" in fields {
        if !fields["addresses"].List? || !Copyable(fields["addresses"]) {
          return Some(BadAddresses), false;
        }
        addresses := fields["addresses"].items;
      }

      var hadUp, up := false, true;
      if "up" in fields {
        if !fields["up"].Bool? {
          return Some(BadUp), false;
        }
        hadUp, up := true, fields["up"].flag;
      }

      var nextAddresses, foundDesired, dropped := KeepCurrent(addresses, desired);
      changed := dropped;
      NextAddressesSame(addresses, desired);
      if !foundDesired {
        nextAddresses := nextAddresses + [AddressEntry(desired)];
        changed := true;
      }
      assert nextAddresses == NextAddresses(addresses, desired);
      assert changed <==> !("addresses" in fields && fields["addresses"] == List(nextAddresses));
      if !hadUp {
        up := true;
        changed := true;
      }
      if "apiVersion" !in fields || fields["apiVersion"] != API_VERSION {
        changed := true;
      }
      if "kind" !in fields || fields["kind"] != KIND {
        changed := true;
      }
      if "name" !in fields || fields["name"] != Str(interfaceName) {
        changed := true;
      }

      FieldsSame(fields, interfaceName, Bool(up), nextAddresses);
      SetFields(interfaceName, up, nextAddresses);
      return None, changed;
    }

    /** The closing assignments. */
    method SetFields(interfaceName: Text, up: bool, addresses: seq<Value>)
      modifies this
      ensures fields == WithFields(old(fields), interfaceName, Bool(up), addresses)
    {
      fields := fields["apiVersion" := API_VERSION];
      fields := fields["kind" := KIND];
      fields := fields["name" := Str(interfaceName)];
      fields := fields["up" := Bool(up)];
      fields := fields["addresses" := List(addresses)];
    }
  }

  /** `doc` with the five LinkConfig fields set. */
  function WithFields(doc: Doc, interfaceName: Text, up: Value, addresses: seq<Value>): Doc {
    doc["apiVersion" := API_VERSION]["kind" := KIND]["name" := Str(interfaceName)]["up" := up]
       ["addresses" := List(addresses)]
  }

  /** Setting the five fields leaves a document alone exactly when each value is there already. */
  lemma FieldsSame(doc: Doc, interfaceName: Text, up: Value, addresses: seq<Value>)
    ensures WithFields(doc, interfaceName, up, addresses) == doc
       <==> && "apiVersion" in doc && doc["apiVersion"] == API_VERSION
            && "kind" in doc && doc["kind"] == KIND
            && "name" in doc && doc["name"] == Str(interfaceName)
            && "up" in doc && doc["up"] == up
            && "addresses" in doc && doc["addresses"] == List(addresses)
  {
    var out := WithFields(doc, interfaceName, up, addresses);
    assert out["apiVersion"] == API_VERSION && out["kind"] == KIND && out["name"] == Str(interfaceName);
    assert out["up"] == up && out["addresses"] == List(addresses);
  }

  /** The loop over the entries: keeps what is not stale, and notes whether the desired
      prefix was met and whether anything was dropped. */
  method KeepCurrent(addresses: seq<Value>, desired: Prefix)
    returns (next: seq<Value>, foundDesired: bool, dropped: bool)
    ensures next == Keep(addresses, desired)
    ensures foundDesired <==> Names(addresses, desired)
    ensures dropped <==> exists e :: e in addresses && Stale(e, desired)
  {
    var managedSubnet := desired.Masked();
    next, foundDesired, dropped := [], false, false;
    for i := 0 to |addresses|
      invariant next == Keep(addresses[..i], desired)
      invariant foundDesired <==> Names(addresses[..i], desired)
      invariant dropped <==> exists e :: e in addresses[..i] && Stale(e, desired)
    {
      var entry := addresses[i];
      assert addresses[..i + 1] == addresses[..i] + [entry];
      NamesExtend(addresses, i, desired);
      var existing := EntryPrefix(entry);
      if existing == Some(desired) {
        foundDesired := true;
        next := next + [entry];
      } else if existing.Some? && existing.value.bits == desired.bits && managedSubnet.Contains(existing.value.addr) {
        assert Stale(entry, desired);
        dropped := true;
      } else {
        next := next + [entry];
      }
    }
    assert addresses[..|addresses|] == addresses;
  }

  lemma NamesExtend(addresses: seq<Value>, i: nat, desired: Prefix)
    requires i < |addresses|
    ensures Names(addresses[..i + 1], desired)
       <==> Names(addresses[..i], desired) || EntryPrefix(addresses[i]) == Some(desired)
  {
    var longer, shorter := addresses[..i + 1], addresses[..i];
    if EntryPrefix(addresses[i]) == Some(desired) {
      assert EntryPrefix(longer[i]) == Some(desired);
    }
    if Names(shorter, desired) {
      var j :| 0 <= j < |shorter| && EntryPrefix(shorter[j]) == Some(desired);
      assert EntryPrefix(longer[j]) == Some(desired);
    }
    if Names(longer, desired) && EntryPrefix(addresses[i]) != Some(desired) {
      var j :| 0 <= j < |longer| && EntryPrefix(longer[j]) == Some(desired);
      assert EntryPrefix(shorter[j]) == Some(desired);
    }
  }
}
