/** Comma-separated lists in node pool annotations. */
module NodePools {
  import opened Strings

  /** The trimmed fields that are not empty. */
  function Clean(fields: seq<string>): seq<string> {
    if fields == [] then [] else
    var rest := Clean(fields[..|fields| - 1]);
    var field := TrimSpace(fields[|fields| - 1]);
    if field == "" then rest else rest + [field]
  }

  /** The first occurrence of each name. */
  function Distinct(names: seq<string>): seq<string> {
    if names == [] then [] else
    var rest := Distinct(names[..|names| - 1]);
    var name := names[|names| - 1];
    if name in rest then rest else rest + [name]
  }

  /** The members of `names` that are not in `known`, in order. */
  function Without(names: seq<string>, known: seq<string>): seq<string> {
    if names == [] then [] else
    var rest := Without(names[..|names| - 1], known);
    var name := names[|names| - 1];
    if name in known then rest else rest + [name]
  }

  function Parse(value: string): seq<string> {
    Distinct(Clean(Split(value, ',')))
  }

  predicate NormalForm(names: seq<string>) {
    && (forall name :: name in names ==> name != "" && Trimmed(name) && ',' !in name)
    && (forall i, j :: 0 <= i < j < |names| ==> names[i] != names[j])
  }

  method ParseCommaSeparatedUnique(value: string) returns (result: seq<string>)
    ensures result == Parse(value)
  {
    var fields := Split(value, ',');
    result := [];
    var seen: set<string> := {};
    for i := 0 to |fields|
      invariant result == Distinct(Clean(fields[..i]))
      invariant forall name :: name in seen <==> name in result
    {
      assert fields[..i + 1][..i] == fields[..i];
      var field := TrimSpace(fields[i]);
      if field == "" {
        continue;
      }
      assert Clean(fields[..i + 1])[..|Clean(fields[..i])|] == Clean(fields[..i]);
      if field in seen {
        continue;
      }
      seen := seen + {field};
      result := result + [field];
    }
    assert fields[..|fields|] == fields;
  }

  lemma {:induction false} CleanSpec(fields: seq<string>)
    requires forall f :: f in fields ==> ',' !in f
    ensures forall name :: name in Clean(fields) ==> name != "" && Trimmed(name) && ',' !in name
  {
    if fields != [] {
      CleanSpec(fields[..|fields| - 1]);
      var _, _ := TrimSpec(fields[|fields| - 1]);
      assert fields[|fields| - 1] in fields;
    }
  }

  lemma {:induction false} CleanConcat(a: seq<string>, b: seq<string>)
    ensures Clean(a + b) == Clean(a) + Clean(b)
  {
    if b == [] {
      assert a + b == a;
    } else {
      assert (a + b)[..|a + b| - 1] == a + b[..|b| - 1];
      CleanConcat(a, b[..|b| - 1]);
    }
  }

  lemma {:induction false} CleanNormal(names: seq<string>)
    requires forall name :: name in names ==> name != "" && Trimmed(name)
    ensures Clean(names) == names
  {
    if names != [] {
      var n := |names| - 1;
      assert names == names[..n] + [names[n]];
      assert forall name :: name in names[..n] ==> name in names;
      CleanNormal(names[..n]);
      assert names[n] in names;
      TrimTrimmed(names[n]);
    }
  }

  lemma {:induction false} DistinctSpec(names: seq<string>)
    ensures forall name :: name in Distinct(names) <==> name in names
    ensures forall i, j :: 0 <= i < j < |Distinct(names)| ==> Distinct(names)[i] != Distinct(names)[j]
  {
    if names != [] {
      var n := |names| - 1;
      DistinctSpec(names[..n]);
      assert names == names[..n] + [names[n]];
    }
  }

  lemma {:induction false} DistinctSame(names: seq<string>)
    requires forall i, j :: 0 <= i < j < |names| ==> names[i] != names[j]
    ensures Distinct(names) == names
  {
    if names != [] {
      var n := |names| - 1;
      DistinctSame(names[..n]);
      assert names == names[..n] + [names[n]];
    }
  }

  lemma {:induction false} DistinctConcat(a: seq<string>, b: seq<string>)
    ensures Distinct(a + b) == Distinct(a) + Without(Distinct(b), Distinct(a))
  {
    if b == [] {
      assert a + b == a;
    } else {
      var n := |b| - 1;
      assert (a + b)[..|a + b| - 1] == a + b[..n];
      DistinctConcat(a, b[..n]);
      var rest := Distinct(b[..n]);
      WithoutSpec(rest, Distinct(a));
      if b[n] !in rest {
        assert (rest + [b[n]])[..|rest|] == rest;
      }
    }
  }

  lemma {:induction false} WithoutSpec(names: seq<string>, known: seq<string>)
    ensures forall name :: name in Without(names, known) <==> name in names && name !in known
  {
    if names != [] {
      var n := |names| - 1;
      WithoutSpec(names[..n], known);
      assert names == names[..n] + [names[n]];
    }
  }

  /** Two names appear in the result in the order of their first occurrences. */
  lemma {:induction false} FirstOccurrenceOrder(names: seq<string>, i: nat, j: nat) returns (p: nat, q: nat)
    requires i < j < |Distinct(names)|
    ensures p < q < |names|
    ensures names[p] == Distinct(names)[i] && names[p] !in names[..p]
    ensures names[q] == Distinct(names)[j] && names[q] !in names[..q]
  {
    var n := |names| - 1;
    var rest := Distinct(names[..n]);
    DistinctSpec(names[..n]);
    if j < |rest| {
      p, q := FirstOccurrenceOrder(names[..n], i, j);
      assert names[..n][..p] == names[..p] && names[..n][..q] == names[..q];
    } else {
      q := n;
      p := FirstOccurrence(names[..n], rest[i]);
      assert names[..n][..p] == names[..p];
      assert names[p] == rest[i];
    }
  }

  lemma {:induction false} FirstOccurrence(names: seq<string>, name: string) returns (p: nat)
    requires name in names
    ensures p < |names| && names[p] == name && name !in names[..p]
  {
    var n := |names| - 1;
    if name in names[..n] {
      p := FirstOccurrence(names[..n], name);
      assert names[..n][..p] == names[..p];
    } else {
      p := n;
      assert names == names[..n] + [names[n]];
    }
  }

  lemma {:induction false} CleanMembers(fields: seq<string>, name: string)
    ensures name in Clean(fields) <==> name != "" && exists f :: f in fields && TrimSpace(f) == name
  {
    if fields != [] {
      var n := |fields| - 1;
      CleanMembers(fields[..n], name);
      assert fields == fields[..n] + [fields[n]];
    }
  }

  /** The names are exactly the fields between the commas, trimmed, apart from the blank ones. */
  lemma ParseMembers(value: string, name: string)
    ensures name in Parse(value) <==> name != "" && exists f :: f in Split(value, ',') && TrimSpace(f) == name
  {
    CleanMembers(Split(value, ','), name);
    DistinctSpec(Clean(Split(value, ',')));
  }

  /** So every comma-free piece with something other than white space in it is found, wherever
      it stands in the list. */
  lemma NamesFound(before: string, field: string, after: string)
    requires ',' !in field && !AllSpace(field)
    ensures TrimSpace(field) != "" && TrimSpace(field) in Parse(before + "," + field + "," + after)
  {
    SplitConcat(before + "," + field, after, ',');
    SplitConcat(before, field, ',');
    SplitPlain(field, ',');
    var i, j := TrimSpec(field);
    assert field == field[..i] + field[i..j] + field[j..];
    assert field in Split(before + "," + field + "," + after, ',');
    ParseMembers(before + "," + field + "," + after, TrimSpace(field));
  }

  /** A parsed list is in normal form. */
  lemma ParseNormal(value: string)
    ensures NormalForm(Parse(value))
  {
    SplitFields(value, ',');
    CleanSpec(Split(value, ','));
    DistinctSpec(Clean(Split(value, ',')));
  }

  /** The lists in normal form are exactly the lists that come back from a comma-join. */
  lemma ParseJoin(names: seq<string>)
    ensures NormalForm(names) <==> Parse(Join(names, ',')) == names
  {
    ParseNormal(Join(names, ','));
    if NormalForm(names) {
      if names != [] {
        SplitJoin(names, ',');
        CleanNormal(names);
      }
      DistinctSame(names);
    }
  }

  /** Parsing two lists joined by a comma gives the first and what the second adds. */
  lemma ParseConcat(a: string, b: string)
    ensures Parse(a + "," + b) == Parse(a) + Without(Parse(b), Parse(a))
  {
    SplitConcat(a, b, ',');
    CleanConcat(Split(a, ','), Split(b, ','));
    DistinctConcat(Clean(Split(a, ',')), Clean(Split(b, ',')));
  }
}
