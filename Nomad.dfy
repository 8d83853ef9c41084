/** The pure core of ase/nomad.py: nmd:// URIs, and turning the JSON of a
    NOMAD calculation into a sequence of structures. Fetching and JSON
    decoding are not modelled: a document arrives as a Json value. Unit
    scaling by units.m is left out, so coordinates are the document's own. */
module Nomad {
  import opened Wrappers

  /** A decoded JSON value; objects are the NomadEntry dictionaries. */
  datatype Json =
    | JNull
    | JBool(b: bool)
    | JNum(n: real)
    | JStr(s: string)
    | JList(items: seq<Json>)
    | JDict(fields: map<string, Json>)

  datatype NomadError =
    | NotNmdUri          // assert uri.startswith('nmd://')
    | MissingKey(key: string)  // KeyError
    | TypeMismatch       // TypeError / AttributeError: the value has the wrong kind
    | NotSectionSystem   // assert section['name'] == 'section_system'
    | NotNumeric         // a value numpy cannot turn into a number
    | BadShape           // ValueError from reshape
    | BadPbc             // the length asserts on configuration_periodic_dimensions
    | MissingSectionRun  // assert 'section_run' in d

  // ---------------------------------------------------------------------
  // nmd:// URIs
  // ---------------------------------------------------------------------

  const NmdPrefix: string := "nmd://"
  /** nomad_api_template around its {hash} field. */
  const TemplateHead: string := "https://labdev-nomad.esc.rzg.mpg.de/api/resolve/"
  const TemplateTail: string := "?format=recursiveJson"

  /** nmd2https: the template with the URI's hash (all after nmd://) filled in. */
  function NmdToHttps(uri: string): (r: Result<string, NomadError>)
    ensures r.Err? <==> !(NmdPrefix <= uri)
    ensures r.Err? ==> r.error == NotNmdUri
  {
    if NmdPrefix <= uri then Ok(TemplateHead + uri[|NmdPrefix|..] + TemplateTail) else Err(NotNmdUri)
  }

  /** The hash back out of an API URL: what lies between the template's
      head and tail. */
  function HashOfUrl(url: string): Option<string> {
    if |url| >= |TemplateHead| + |TemplateTail| && TemplateHead <= url
       && url[|url| - |TemplateTail|..] == TemplateTail
    then Some(url[|TemplateHead|..|url| - |TemplateTail|])
    else None
  }

  /** The URL carries the URI's hash unchanged. */
  lemma HttpsCarriesHash(uri: string)
    requires NmdPrefix <= uri
    ensures HashOfUrl(NmdToHttps(uri).value) == Some(uri[|NmdPrefix|..])
  {
    var h := uri[|NmdPrefix|..];
    var url := TemplateHead + h + TemplateTail;
    assert url[..|TemplateHead|] == TemplateHead;
    assert url[|url| - |TemplateTail|..] == TemplateTail;
    assert url[|TemplateHead|..|url| - |TemplateTail|] == h;
  }

  /** Distinct nmd:// URIs give distinct URLs. */
  lemma NmdToHttpsInjective(a: string, b: string)
    requires NmdToHttps(a).Ok? && NmdToHttps(a) == NmdToHttps(b)
    ensures a == b
  {
    HttpsCarriesHash(a);
    HttpsCarriesHash(b);
    assert a == NmdPrefix + a[|NmdPrefix|..];
    assert b == NmdPrefix + b[|NmdPrefix|..];
  }

  /** NomadEntry.hash: the entry's uri without its nmd:// prefix. */
  function Hash(entry: map<string, Json>): (r: Result<string, NomadError>)
    ensures r.Ok? <==> "uri" in entry && entry["uri"].JStr? && NmdPrefix <= entry["uri"].s
    ensures r.Ok? ==> |r.value| == |entry["uri"].s| - |NmdPrefix|
  {
    if "uri" !in entry then Err(MissingKey("uri"))
    else if !entry["uri"].JStr? then Err(TypeMismatch)
    else if !(NmdPrefix <= entry["uri"].s) then Err(NotNmdUri)
    else Ok(entry["uri"].s[|NmdPrefix|..])
  }

  /** The hash is exactly what nmd2https puts into the URL, and the URI is
      the prefix followed by its hash. */
  lemma HashIsUrlHash(entry: map<string, Json>)
    requires Hash(entry).Ok?
    ensures NmdToHttps(entry["uri"].s) == Ok(TemplateHead + Hash(entry).value + TemplateTail)
    ensures entry["uri"].s == NmdPrefix + Hash(entry).value
  {
    var uri := entry["uri"].s;
    assert uri == uri[..|NmdPrefix|] + uri[|NmdPrefix|..];
  }

  // ---------------------------------------------------------------------
  // JSON access
  // ---------------------------------------------------------------------

  /** section[key] on a dictionary. */
  function Lookup(fields: map<string, Json>, key: string): (r: Result<Json, NomadError>)
    ensures r.Ok? <==> key in fields
    ensures r.Ok? ==> r.value == fields[key]
  {
    if key in fields then Ok(fields[key]) else Err(MissingKey(key))
  }

  /** value[key] on a JSON value, which must be an object. */
  function Field(j: Json, key: string): Result<Json, NomadError> {
    if j.JDict? then Lookup(j.fields, key) else Err(TypeMismatch)
  }

  /** section.get(key), where a JSON null reads as absent as well. */
  function GetOpt(fields: map<string, Json>, key: string): (r: Option<Json>)
    ensures r.Some? <==> key in fields && fields[key] != JNull
    ensures r.Some? ==> r.value == fields[key]
  {
    if key in fields && fields[key] != JNull then Some(fields[key]) else None
  }

  function AsList(j: Json): Result<seq<Json>, NomadError> {
    if j.JList? then Ok(j.items) else Err(TypeMismatch)
  }

  function AsDict(j: Json): Result<map<string, Json>, NomadError> {
    if j.JDict? then Ok(j.fields) else Err(TypeMismatch)
  }

  // ---------------------------------------------------------------------
  // Species
  // ---------------------------------------------------------------------

  /** Python's int() of a real: truncation toward zero. */
  function Trunc(x: real): (n: int)
    ensures x >= 0.0 ==> n as real <= x < n as real + 1.0
    ensures x < 0.0 ==> n as real - 1.0 < x <= n as real
  {
    if x >= 0.0 then x.Floor else -((-x).Floor)
  }

  /** One element of np.array(numbers, int). */
  function ToInt(j: Json): Result<int, NomadError> {
    match j
    case JNum(x) => Ok(Trunc(x))
    case JBool(b) => Ok(if b then 1 else 0)
    case _ => Err(NotNumeric)
  }

  function ToInts(js: seq<Json>): (r: Result<seq<int>, NomadError>)
    ensures r.Ok? <==> forall i :: 0 <= i < |js| ==> ToInt(js[i]).Ok?
    ensures r.Ok? ==> |r.value| == |js|
    ensures r.Ok? ==> forall i :: 0 <= i < |js| ==> ToInt(js[i]) == Ok(r.value[i])
  {
    if js == [] then Ok([])
    else
      var x :- ToInt(js[0]);
      var rest :- ToInts(js[1..]);
      Ok([x] + rest)
  }

  /** numbers[numbers < 0] = 0 then numbers[numbers > count] = 0, as
      written: a species equal to count survives. */
  function ClampedAsWritten(xs: seq<int>, count: nat): (r: seq<int>)
    ensures |r| == |xs|
    ensures forall i :: 0 <= i < |xs| ==> 0 <= r[i] <= count
    ensures forall i :: 0 <= i < |xs| ==> (r[i] == xs[i] <==> 0 <= xs[i] <= count)
    ensures forall i :: 0 <= i < |xs| && (xs[i] < 0 || xs[i] > count) ==> r[i] == 0
  {
    var nonNegative := seq(|xs|, i requires 0 <= i < |xs| => if xs[i] < 0 then 0 else xs[i]);
    seq(|xs|, i requires 0 <= i < |xs| => if nonNegative[i] > count then 0 else nonNegative[i])
  }

  /** The clamp as intended: only indices of chemical_symbols survive. */
  function Clamped(xs: seq<int>, count: nat): (r: seq<int>)
    ensures |r| == |xs|
    ensures forall i :: 0 <= i < |xs| ==> 0 <= r[i] && (count > 0 ==> r[i] < count)
    ensures forall i :: 0 <= i < |xs| && 0 <= xs[i] < count ==> r[i] == xs[i]
    ensures forall i :: 0 <= i < |xs| && (xs[i] < 0 || xs[i] >= count) ==> r[i] == 0
  {
    var nonNegative := seq(|xs|, i requires 0 <= i < |xs| => if xs[i] < 0 then 0 else xs[i]);
    seq(|xs|, i requires 0 <= i < |xs| => if nonNegative[i] >= count then 0 else nonNegative[i])
  }

  /** With count symbols, the written clamp keeps species count, which is
      no index of chemical_symbols; the intended one maps it to 0. */
  lemma ClampAsWrittenKeepsCount(count: nat)
    ensures ClampedAsWritten([count], count) == [count]
    ensures !(ClampedAsWritten([count], count)[0] < count)
    ensures Clamped([count], count) == [0]
  {
  }

  /** Every clamped species indexes chemical_symbols, species that already
      do are kept, the rest become 0, and clamping twice changes nothing. */
  lemma ClampedIndexesSymbols(xs: seq<int>, count: nat)
    requires count > 0
    ensures forall i :: 0 <= i < |xs| ==> 0 <= Clamped(xs, count)[i] < count
    ensures forall i :: 0 <= i < |xs| ==> (Clamped(xs, count)[i] == xs[i] <==> 0 <= xs[i] < count || xs[i] == 0)
    ensures Clamped(Clamped(xs, count), count) == Clamped(xs, count)
  {
  }

  /** Lines 79-80 as written, in place on the numbers array. */
  method ClampSpeciesAsWritten(numbers: array<int>, count: nat)
    modifies numbers
    ensures numbers[..] == ClampedAsWritten(old(numbers[..]), count)
  {
    forall i | 0 <= i < numbers.Length && numbers[i] < 0 {
      numbers[i] := 0;
    }
    forall i | 0 <= i < numbers.Length && numbers[i] > count {
      numbers[i] := 0;
    }
  }

  /** Lines 79-80 as intended, in place on the numbers array. */
  method ClampSpecies(numbers: array<int>, count: nat)
    modifies numbers
    ensures numbers[..] == Clamped(old(numbers[..]), count)
  {
    forall i | 0 <= i < numbers.Length && numbers[i] < 0 {
      numbers[i] := 0;
    }
    forall i | 0 <= i < numbers.Length && numbers[i] >= count {
      numbers[i] := 0;
    }
  }

  // ---------------------------------------------------------------------
  // Coordinates
  // ---------------------------------------------------------------------

  datatype Vec3 = Vec3(x: real, y: real, z: real)

  /** One element of np.array(flatData) used as a number. */
  function ToReal(j: Json): Result<real, NomadError> {
    match j
    case JNum(x) => Ok(x)
    case JBool(b) => Ok(if b then 1.0 else 0.0)
    case _ => Err(NotNumeric)
  }

  function ToReals(js: seq<Json>): (r: Result<seq<real>, NomadError>)
    ensures r.Ok? <==> forall i :: 0 <= i < |js| ==> ToReal(js[i]).Ok?
    ensures r.Ok? ==> |r.value| == |js|
    ensures r.Ok? ==> forall i :: 0 <= i < |js| ==> ToReal(js[i]) == Ok(r.value[i])
  {
    if js == [] then Ok([])
    else
      var x :- ToReal(js[0]);
      var rest :- ToReals(js[1..]);
      Ok([x] + rest)
  }

  /** reshape(-1, 3): rows of three, when the length allows it. */
  function Rows3(xs: seq<real>): (r: Result<seq<Vec3>, NomadError>)
    ensures r.Ok? <==> |xs| % 3 == 0
    ensures r.Ok? ==> 3 * |r.value| == |xs|
    ensures r.Err? ==> r.error == BadShape
  {
    if |xs| % 3 != 0 then Err(BadShape)
    else if xs == [] then Ok([])
    else
      var rest := Rows3(xs[3..]);
      Ok([Vec3(xs[0], xs[1], xs[2])] + rest.value)
  }

  /** The rows read row by row. */
  function Flatten(rows: seq<Vec3>): (xs: seq<real>)
    ensures |xs| == 3 * |rows|
  {
    if rows == [] then [] else [rows[0].x, rows[0].y, rows[0].z] + Flatten(rows[1..])
  }

  /** Reshaping loses nothing: the rows read back as the flat data. */
  lemma {:induction false} FlattenRows3(xs: seq<real>)
    requires |xs| % 3 == 0
    ensures Flatten(Rows3(xs).value) == xs
    decreases |xs|
  {
    if xs != [] {
      FlattenRows3(xs[3..]);
    }
  }

  /** Flat data made from rows reshapes back into those rows. */
  lemma {:induction false} Rows3Flatten(rows: seq<Vec3>)
    ensures Rows3(Flatten(rows)) == Ok(rows)
  {
    if rows != [] {
      Rows3Flatten(rows[1..]);
      var xs := Flatten(rows);
      assert xs[3..] == Flatten(rows[1..]);
      assert Vec3(xs[0], xs[1], xs[2]) == rows[0];
      assert [rows[0]] + rows[1..] == rows;
    }
  }

  /** reshape(3, 3) of the lattice vectors. */
  function Cell3(xs: seq<real>): (r: Result<seq<Vec3>, NomadError>)
    ensures r.Ok? <==> |xs| == 9
    ensures r.Ok? ==> |r.value| == 3 && Flatten(r.value) == xs
  {
    if |xs| != 9 then Err(BadShape)
    else
      FlattenRows3(xs);
      Rows3(xs)
  }

  // ---------------------------------------------------------------------
  // section_system2atoms
  // ---------------------------------------------------------------------

  /** What the model keeps of the Atoms object built: species, positions,
      periodicity flags (None: the default), cell and the info dictionary. */
  datatype Atoms = Atoms(numbers: seq<int>, positions: seq<Vec3>, pbc: Option<seq<Json>>,
                         cell: Option<seq<Vec3>>, info: map<string, Json>)

  /** The section's name check and its species, before clamping. */
  function Species(section: map<string, Json>): Result<seq<int>, NomadError> {
    var name :- Lookup(section, "name");
    if name != JStr("section_system") then Err(NotSectionSystem)
    else
      var species :- Lookup(section, "atom_species");
      var items :- AsList(species);
      ToInts(items)
  }

  /** atom_positions.flatData reshaped into rows of three. */
  function Positions(section: map<string, Json>): Result<seq<Vec3>, NomadError> {
    var holder :- Lookup(section, "atom_positions");
    var flat :- Field(holder, "flatData");
    var items :- AsList(flat);
    var coords :- ToReals(items);
    Rows3(coords)
  }

  /** configuration_periodic_dimensions: a list of one entry whose flatData
      holds three flags. */
  function Periodicity(pbc: Json): (r: Result<seq<Json>, NomadError>)
    ensures r.Ok? <==> pbc.JList? && |pbc.items| == 1 && pbc.items[0].JDict?
                       && "flatData" in pbc.items[0].fields && pbc.items[0].fields["flatData"].JList?
                       && |pbc.items[0].fields["flatData"].items| == 3
    ensures r.Ok? ==> r.value == pbc.items[0].fields["flatData"].items
  {
    var outer :- AsList(pbc);
    if |outer| != 1 then Err(BadPbc)
    else
      var flat :- Field(outer[0], "flatData");
      var flags :- AsList(flat);
      if |flags| != 3 then Err(BadPbc) else Ok(flags)
  }

  /** lattice_vectors.flatData as a 3x3 cell. */
  function CellOf(cell: Json): Result<seq<Vec3>, NomadError> {
    var flat :- Field(cell, "flatData");
    var items :- AsList(flat);
    var coords :- ToReals(items);
    Cell3(coords)
  }

  /** `if pbc is not None:` around Periodicity. */
  function OptionalPeriodicity(pbc: Option<Json>): (r: Result<Option<seq<Json>>, NomadError>)
    ensures r.Ok? ==> (r.value.Some? <==> pbc.Some?)
  {
    if pbc.None? then Ok(None)
    else
      var flags :- Periodicity(pbc.value);
      Ok(Some(flags))
  }

  /** `if cell is not None:` around CellOf. */
  function OptionalCell(cell: Option<Json>): (r: Result<Option<seq<Vec3>>, NomadError>)
    ensures r.Ok? ==> (r.value.Some? <==> cell.Some?)
  {
    if cell.None? then Ok(None)
    else
      var rows :- CellOf(cell.value);
      Ok(Some(rows))
  }

  /** The rest of section_system2atoms once species and positions are known:
      the uri, then the periodicity, then the cell. */
  function Assemble(section: map<string, Json>, numbers: seq<int>, positions: seq<Vec3>): Result<Atoms, NomadError> {
    var uri :- Lookup(section, "uri");
    var pbc := GetOpt(section, "configuration_periodic_dimensions");
    var cell := GetOpt(section, "lattice_vectors");
    var flags :- OptionalPeriodicity(pbc);
    var rows :- OptionalCell(cell);
    Ok(Atoms(numbers, positions, flags, rows, map["nomad_uri" := uri]))
  }

  /** section_system2atoms with the intended clamp, for `count` chemical
      symbols. */
  function SystemToAtoms(section: map<string, Json>, count: nat): Result<Atoms, NomadError> {
    var species :- Species(section);
    var positions :- Positions(section);
    Assemble(section, Clamped(species, count), positions)
  }

  /** What a structure made from a section holds: one clamped species per
      entry of atom_species, every one an index of chemical_symbols; the
      positions read back as atom_positions.flatData; three periodicity
      flags when the section has them, a 3x3 cell when it has lattice
      vectors; and the section's uri. */
  lemma SystemToAtomsShape(section: map<string, Json>, count: nat)
    requires SystemToAtoms(section, count).Ok?
    ensures var a := SystemToAtoms(section, count).value;
            && "name" in section && section["name"] == JStr("section_system")
            && "atom_species" in section && section["atom_species"].JList?
            && |a.numbers| == |section["atom_species"].items|
            && ToInts(section["atom_species"].items).Ok?
            && a.numbers == Clamped(ToInts(section["atom_species"].items).value, count)
            && (count > 0 ==> forall i :: 0 <= i < |a.numbers| ==> 0 <= a.numbers[i] < count)
            && ToReals(section["atom_positions"].fields["flatData"].items) == Ok(Flatten(a.positions))
            && (a.pbc.Some? <==> GetOpt(section, "configuration_periodic_dimensions").Some?)
            && (a.pbc.Some? ==> a.pbc.value == section["configuration_periodic_dimensions"].items[0].fields["flatData"].items
                                && |a.pbc.value| == 3)
            && (a.cell.Some? <==> GetOpt(section, "lattice_vectors").Some?)
            && (a.cell.Some? ==> |a.cell.value| == 3
                                 && ToReals(section["lattice_vectors"].fields["flatData"].items) == Ok(Flatten(a.cell.value)))
            && a.info == map["nomad_uri" := section["uri"]]
  {
    var species := Species(section).value;
    var positions := Positions(section).value;
    var coords := ToReals(section["atom_positions"].fields["flatData"].items).value;
    if count > 0 {
      ClampedIndexesSymbols(species, count);
    }
    FlattenRows3(coords);
  }

  /** section_system2atoms: the species array is clamped in place before
      the structure is built. */
  method SectionSystemToAtoms(section: map<string, Json>, count: nat) returns (r: Result<Atoms, NomadError>)
    ensures r == SystemToAtoms(section, count)
  {
    var species := Species(section);
    if species.Err? {
      return Err(species.error);
    }
    var numbers := new int[|species.value|](i requires 0 <= i < |species.value| => species.value[i]);
    assert numbers[..] == species.value;
    ClampSpecies(numbers, count);
    var positions := Positions(section);
    if positions.Err? {
      return Err(positions.error);
    }
    r := Assemble(section, numbers[..], positions.value);
  }

  // ---------------------------------------------------------------------
  // dict2images
  // ---------------------------------------------------------------------

  /** One image: the structure of a system, tagged with its run's and its
      own gIndex and the calculation's uri. */
  function ImageOf(run: Json, system: Json, d: map<string, Json>, count: nat): (r: Result<Atoms, NomadError>)
    ensures r.Ok? <==> system.JDict? && SystemToAtoms(system.fields, count).Ok?
                       && run.JDict? && "gIndex" in run.fields && "gIndex" in system.fields && "uri" in d
    ensures r.Ok? ==> var a := SystemToAtoms(system.fields, count).value;
                      r.value.numbers == a.numbers && r.value.positions == a.positions
                      && r.value.pbc == a.pbc && r.value.cell == a.cell
  {
    var section :- AsDict(system);
    var atoms :- SystemToAtoms(section, count);
    var runIndex :- Field(run, "gIndex");
    var systemIndex :- Lookup(section, "gIndex");
    var uri :- Lookup(d, "uri");
    Ok(atoms.(info := atoms.info["nomad_run_gIndex" := runIndex]
                                ["nomad_system_gIndex" := systemIndex]
                                ["nomad_calculation_uri" := uri]))
  }

  /** The info of an image holds exactly the section's uri, the two gIndex
      tags and the calculation's uri. */
  lemma ImageOfTags(run: Json, system: Json, d: map<string, Json>, count: nat)
    requires ImageOf(run, system, d, count).Ok?
    ensures ImageOf(run, system, d, count).value.info
            == map["nomad_uri" := system.fields["uri"],
                   "nomad_run_gIndex" := run.fields["gIndex"],
                   "nomad_system_gIndex" := system.fields["gIndex"],
                   "nomad_calculation_uri" := d["uri"]]
  {
    SystemToAtomsShape(system.fields, count);
  }

  /** run['section_system'], iterated as a list. */
  function SystemsOf(run: Json): Result<seq<Json>, NomadError> {
    var systems :- Field(run, "section_system");
    AsList(systems)
  }

  /** d['section_run'] after the assert that it is there. */
  function RunsOf(d: map<string, Json>): Result<seq<Json>, NomadError> {
    if "section_run" !in d then Err(MissingSectionRun) else AsList(d["section_run"])
  }

  /** What a generator delivers: the images it yields, then the error that
      stops it, if one does. */
  datatype Emission = Emission(images: seq<Atoms>, error: Option<NomadError>)

  function Prepend(a: Atoms, e: Emission): Emission {
    Emission([a] + e.images, e.error)
  }

  /** How one (run, system) pair becomes an image. */
  type ImageFn = (Json, Json) -> Result<Atoms, NomadError>

  /** dict2images' own image making, for document d. */
  function ImageMaker(d: map<string, Json>, count: nat): ImageFn {
    (run, system) => ImageOf(run, system, d, count)
  }

  /** The images of the given runs, run by run. */
  function Stream(runs: seq<Json>, image: ImageFn): Emission
    decreases |runs|, 1, 0
  {
    if runs == [] then Emission([], None)
    else
      match SystemsOf(runs[0])
      case Err(e) => Emission([], Some(e))
      case Ok(systems) => FromSystems(runs[0], systems, runs[1..], image)
  }

  /** The images of the remaining systems of one run, then of the runs after it. */
  function FromSystems(run: Json, systems: seq<Json>, rest: seq<Json>, image: ImageFn): Emission
    decreases |rest| + 1, 0, |systems|
  {
    if systems == [] then Stream(rest, image)
    else
      match image(run, systems[0])
      case Err(e) => Emission([], Some(e))
      case Ok(a) => Prepend(a, FromSystems(run, systems[1..], rest, image))
  }

  /** dict2images, everything the generator yields. */
  function DictImages(d: map<string, Json>, count: nat): (e: Emission)
    ensures "section_run" !in d ==> e == Emission([], Some(MissingSectionRun))
    ensures "section_run" in d && !d["section_run"].JList? ==> e == Emission([], Some(TypeMismatch))
  {
    match RunsOf(d)
    case Err(e) => Emission([], Some(e))
    case Ok(runs) => Stream(runs, ImageMaker(d, count))
  }

  /** The (run, system) pairs in run order, then system order within a run:
      the nested iteration, written as one flat list. */
  function Pairs(runs: seq<Json>): Result<seq<(Json, Json)>, NomadError> {
    if runs == [] then Ok([])
    else
      var systems :- SystemsOf(runs[0]);
      var rest :- Pairs(runs[1..]);
      Ok(seq(|systems|, k requires 0 <= k < |systems| => (runs[0], systems[k])) + rest)
  }

  /** A run of dict2images that ends without error yields exactly one
      image per (run, system) pair, in that order. */
  lemma {:induction false} StreamFollowsPairs(runs: seq<Json>, image: ImageFn)
    requires Stream(runs, image).error.None?
    ensures Pairs(runs).Ok?
    ensures var pairs, images := Pairs(runs).value, Stream(runs, image).images;
            |images| == |pairs|
            && forall k :: 0 <= k < |pairs| ==> image(pairs[k].0, pairs[k].1) == Ok(images[k])
    decreases |runs|, 1, 0
  {
    if runs != [] {
      var systems := SystemsOf(runs[0]).value;
      SystemsFollowPairs(runs[0], systems, runs[1..], image);
      StreamFollowsPairs(runs[1..], image);
      var head: seq<(Json, Json)> := seq(|systems|, k requires 0 <= k < |systems| => (runs[0], systems[k]));
      var rest := Pairs(runs[1..]).value;
      var pairs := head + rest;
      assert Pairs(runs) == Ok(pairs);
      var images := Stream(runs, image).images;
      var tail := Stream(runs[1..], image).images;
      forall k | 0 <= k < |pairs|
        ensures image(pairs[k].0, pairs[k].1) == Ok(images[k])
      {
        if k >= |systems| {
          assert pairs[k] == rest[k - |systems|];
          assert images[k] == tail[k - |systems|];
        }
      }
    }
  }

  /** The systems of one run yield their images first, in order, and then
      the later runs theirs. */
  lemma {:induction false} SystemsFollowPairs(run: Json, systems: seq<Json>, rest: seq<Json>, image: ImageFn)
    requires FromSystems(run, systems, rest, image).error.None?
    ensures Stream(rest, image).error.None?
    ensures var images := FromSystems(run, systems, rest, image).images;
            |images| == |systems| + |Stream(rest, image).images|
            && Stream(rest, image).images == images[|systems|..]
            && forall k :: 0 <= k < |systems| ==> image(run, systems[k]) == Ok(images[k])
    decreases |rest| + 1, 0, |systems|
  {
    if systems != [] {
      SystemsFollowPairs(run, systems[1..], rest, image);
      var images := FromSystems(run, systems, rest, image).images;
      forall k | 0 <= k < |systems|
        ensures image(run, systems[k]) == Ok(images[k])
      {
        if k > 0 {
          assert systems[1..][k - 1] == systems[k];
        }
      }
    }
  }

  /** The image making of the inner loop body. */
  method MakeImage(run: Json, system: Json, d: map<string, Json>, count: nat) returns (r: Result<Atoms, NomadError>)
    ensures r == ImageOf(run, system, d, count)
  {
    var section := AsDict(system);
    if section.Err? {
      return Err(section.error);
    }
    var atoms := SectionSystemToAtoms(section.value, count);
    if atoms.Err? {
      return Err(atoms.error);
    }
    var runIndex := Field(run, "gIndex");
    var systemIndex := Lookup(section.value, "gIndex");
    var uri := Lookup(d, "uri");
    if runIndex.Err? {
      return Err(runIndex.error);
    } else if systemIndex.Err? {
      return Err(systemIndex.error);
    } else if uri.Err? {
      return Err(uri.error);
    }
    var a := atoms.value;
    r := Ok(a.(info := a.info["nomad_run_gIndex" := runIndex.value]
                             ["nomad_system_gIndex" := systemIndex.value]
                             ["nomad_calculation_uri" := uri.value]));
  }

  /** dict2images: for each run, for each of its systems, one image; the
      first error stops the iteration after the images already yielded. */
  method DictToImages(d: map<string, Json>, count: nat) returns (images: seq<Atoms>, error: Option<NomadError>)
    ensures Emission(images, error) == DictImages(d, count)
  {
    images, error := [], None;
    var found := RunsOf(d);
    if found.Err? {
      return [], Some(found.error);
    }
    var runs := found.value;
    ghost var image := ImageMaker(d, count);
    var i := 0;
    while i < |runs|
      invariant 0 <= i <= |runs|
      invariant DictImages(d, count) == Emission(images + Stream(runs[i..], image).images, Stream(runs[i..], image).error)
    {
      var systems := SystemsOf(runs[i]);
      if systems.Err? {
        return images, Some(systems.error);
      }
      var j := 0;
      while j < |systems.value|
        invariant 0 <= j <= |systems.value|
        invariant DictImages(d, count)
                  == Emission(images + FromSystems(runs[i], systems.value[j..], runs[i + 1..], image).images,
                              FromSystems(runs[i], systems.value[j..], runs[i + 1..], image).error)
      {
        var made := MakeImage(runs[i], systems.value[j], d, count);
        if made.Err? {
          return images, Some(made.error);
        }
        assert systems.value[j..][1..] == systems.value[j + 1..];
        images := images + [made.value];
        j := j + 1;
      }
      assert runs[i..][1..] == runs[i + 1..];
      i := i + 1;
    }
  }
}
