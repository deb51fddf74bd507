/** Normalisation and validation of the job ads returned by the search API:
    the `AdzunaAd` record schema, the flattening of one raw ad into the 18 record
    fields, the validation of a list of ads, and the internship test. */
module DataModels {
  import opened Wrappers
  import opened PyText
  import opened Json

  // ---------------------------------------------------------------------------
  // The AdzunaAd schema
  // ---------------------------------------------------------------------------

  /** The 18 fields declared on `AdzunaAd`; `Name` gives each one's key. */
  datatype Key =
    | Title | Created | SalaryIsPredicted | SalaryMin | SalaryMax | Latitude | Longitude
    | Area | Location | Id | Adref | RedirectUrl | Company | Description
    | ContractType | ContractTime | Label | Tag

  /** The fields in declaration order. */
  const Declared: seq<Key> := [
    Title, Created, SalaryIsPredicted, SalaryMin, SalaryMax, Latitude, Longitude,
    Area, Location, Id, Adref, RedirectUrl, Company, Description,
    ContractType, ContractTime, Label, Tag
  ]

  const AllKeys: set<Key> := set k | k in Declared

  function Name(k: Key): string
  {
    match k
    case Title => "title"
    case Created => "created"
    case SalaryIsPredicted => "salary_is_predicted"
    case SalaryMin => "salary_min"
    case SalaryMax => "salary_max"
    case Latitude => "latitude"
    case Longitude => "longitude"
    case Area => "area"
    case Location => "location"
    case Id => "id"
    case Adref => "adref"
    case RedirectUrl => "redirect_url"
    case Company => "company"
    case Description => "description"
    case ContractType => "contract_type"
    case ContractTime => "contract_time"
    case Label => "label"
    case Tag => "tag"
  }

  /** The value types the fields are declared with. */
  datatype FieldKind = Text | Integer | Float | TextList

  function KindOf(k: Key): FieldKind
  {
    match k
    case SalaryIsPredicted => Integer
    case SalaryMin | SalaryMax | Latitude | Longitude => Float
    case Area => TextList
    case _ => Text
  }

  /** Every field not declared `Optional[...]` refuses `None`. */
  predicate Required(k: Key)
  {
    match k
    case SalaryMin | SalaryMax | Latitude | Longitude | Company | ContractType | ContractTime => false
    case _ => true
  }

  /** A normalised ad: the keyword arguments handed to `AdzunaAd`. */
  type Record = map<Key, Json>

  /** A number field's value; a non-integral number is kept as its text. */
  datatype Number = Whole(n: int) | Decimal(text: string)

  /** A validated job ad. (`label` is a reserved word here, hence `categoryLabel`.) */
  datatype AdzunaAd = AdzunaAd(
    title: string,
    created: string,
    salaryIsPredicted: int,
    salaryMin: Option<Number>,
    salaryMax: Option<Number>,
    latitude: Option<Number>,
    longitude: Option<Number>,
    area: seq<string>,
    location: string,
    id: string,
    adref: string,
    redirectUrl: string,
    company: Option<string>,
    description: string,
    contractType: Option<string>,
    contractTime: Option<string>,
    categoryLabel: string,
    categoryTag: string)

  lemma DeclaredIsComplete(k: Key)
    ensures k in Declared
  {
  }

  // ---------------------------------------------------------------------------
  // Validation: AdzunaAd(**record)
  // ---------------------------------------------------------------------------

  /** A non-null value is of the declared type. */
  predicate Accepts(kind: FieldKind, v: Json)
  {
    match kind
    case Text => v.Str?
    case Integer => v.Int?
    case Float => v.Int? || v.Num?
    case TextList => v.List? && forall j :: 0 <= j < |v.items| ==> v.items[j].Str?
  }

  /** The field is supplied, and is either null and optional or of its declared type. */
  predicate FieldOk(k: Key, rec: Record)
  {
    k in rec && (if rec[k].Null? then !Required(k) else Accepts(KindOf(k), rec[k]))
  }

  /** Every declared field passes. */
  predicate Conforms(rec: Record)
  {
    forall k :: FieldOk(k, rec)
  }

  /** The fields among `keys` that do not pass, in order. */
  function Failing(keys: seq<Key>, rec: Record): (r: seq<Key>)
    ensures forall k :: k in r <==> k in keys && !FieldOk(k, rec)
  {
    if keys == [] then []
    else
      var rest := Failing(keys[1..], rec);
      if FieldOk(keys[0], rec) then rest else [keys[0]] + rest
  }

  function OptTextOf(v: Json): Option<string>
    requires v.Null? || v.Str?
  {
    if v.Null? then None else Some(v.s)
  }

  function NumberOf(v: Json): Number
    requires v.Int? || v.Num?
  {
    if v.Int? then Whole(v.i) else Decimal(v.text)
  }

  function OptNumberOf(v: Json): Option<Number>
    requires v.Null? || v.Int? || v.Num?
  {
    if v.Null? then None else Some(NumberOf(v))
  }

  function TextsOf(v: Json): seq<string>
    requires Accepts(TextList, v)
  {
    seq(|v.items|, j requires 0 <= j < |v.items| => v.items[j].s)
  }

  function OptTextJson(o: Option<string>): Json
  {
    if o.None? then Null else Str(o.value)
  }

  function OptNumberJson(o: Option<Number>): Json
  {
    match o
    case None => Null
    case Some(Whole(n)) => Int(n)
    case Some(Decimal(t)) => Num(t)
  }

  function TextsJson(texts: seq<string>): Json
  {
    List(seq(|texts|, j requires 0 <= j < |texts| => Str(texts[j])))
  }

  /** The record as a dict of JSON values, one entry per declared field (`model_dump`). */
  function Dump(a: AdzunaAd): (d: Record)
    ensures forall k :: k in d && d[k] == DumpField(a, k)
  {
    assert forall k :: k in AllKeys by {
      forall k ensures k in AllKeys { DeclaredIsComplete(k); }
    }
    map k | k in AllKeys :: DumpField(a, k)
  }

  function DumpField(a: AdzunaAd, k: Key): Json
  {
    match k
    case Title => Str(a.title)
    case Created => Str(a.created)
    case SalaryIsPredicted => Int(a.salaryIsPredicted)
    case SalaryMin => OptNumberJson(a.salaryMin)
    case SalaryMax => OptNumberJson(a.salaryMax)
    case Latitude => OptNumberJson(a.latitude)
    case Longitude => OptNumberJson(a.longitude)
    case Area => TextsJson(a.area)
    case Location => Str(a.location)
    case Id => Str(a.id)
    case Adref => Str(a.adref)
    case RedirectUrl => Str(a.redirectUrl)
    case Company => OptTextJson(a.company)
    case Description => Str(a.description)
    case ContractType => OptTextJson(a.contractType)
    case ContractTime => OptTextJson(a.contractTime)
    case Label => Str(a.categoryLabel)
    case Tag => Str(a.categoryTag)
  }

  /** A required text field of a conforming dict. */
  function TextAt(rec: Record, k: Key): string
    requires Conforms(rec) && KindOf(k) == Text && Required(k)
  {
    assert FieldOk(k, rec);
    rec[k].s
  }

  /** An optional text field of a conforming dict. */
  function OptTextAt(rec: Record, k: Key): Option<string>
    requires Conforms(rec) && KindOf(k) == Text
  {
    assert FieldOk(k, rec);
    OptTextOf(rec[k])
  }

  /** An optional number field of a conforming dict. */
  function OptNumberAt(rec: Record, k: Key): Option<Number>
    requires Conforms(rec) && KindOf(k) == Float
  {
    assert FieldOk(k, rec);
    OptNumberOf(rec[k])
  }

  /** The record built from a conforming dict. */
  function Build(rec: Record): AdzunaAd
    requires Conforms(rec)
  {
    assert FieldOk(SalaryIsPredicted, rec) && FieldOk(Area, rec);
    AdzunaAd(
      TextAt(rec, Title),
      TextAt(rec, Created),
      rec[SalaryIsPredicted].i,
      OptNumberAt(rec, SalaryMin),
      OptNumberAt(rec, SalaryMax),
      OptNumberAt(rec, Latitude),
      OptNumberAt(rec, Longitude),
      TextsOf(rec[Area]),
      TextAt(rec, Location),
      TextAt(rec, Id),
      TextAt(rec, Adref),
      TextAt(rec, RedirectUrl),
      OptTextAt(rec, Company),
      TextAt(rec, Description),
      OptTextAt(rec, ContractType),
      OptTextAt(rec, ContractTime),
      TextAt(rec, Label),
      TextAt(rec, Tag))
  }

  /** Building loses nothing: dumping the built record gives the dict back. */
  lemma DumpBuild(rec: Record)
    requires Conforms(rec)
    ensures Dump(Build(rec)) == rec
  {
    var a := Build(rec);
    forall k ensures k in rec && DumpField(a, k) == rec[k] {
      DumpBuildField(rec, k);
    }
    RecordExtensionality(Dump(a), rec);
  }

  /** Two records with all keys and the same entries are equal. */
  lemma RecordExtensionality(d: Record, e: Record)
    requires forall k :: k in d && k in e && d[k] == e[k]
    ensures d == e
  {
  }

  lemma DumpBuildField(rec: Record, k: Key)
    requires Conforms(rec)
    ensures k in rec && DumpField(Build(rec), k) == rec[k]
  {
    assert FieldOk(k, rec);
    if k == Area {
      assert DumpField(Build(rec), Area).items == rec[Area].items;
    }
  }

  /** `AdzunaAd(**rec)`: the record when every declared field passes; otherwise the
      validation error, which lists every failing field in declaration order. */
  function Validate(rec: Record): (r: Result<AdzunaAd, seq<Key>>)
    ensures r.Success? <==> Conforms(rec)
    ensures r.Success? ==> Dump(r.value) == rec
    ensures r.Failure? ==> r.error != [] && forall k :: k in r.error <==> !FieldOk(k, rec)
  {
    var bad := Failing(Declared, rec);
    assert forall k :: k in bad <==> !FieldOk(k, rec) by {
      forall k ensures k in Declared { DeclaredIsComplete(k); }
    }
    if bad != [] then assert !FieldOk(bad[0], rec); Failure(bad)
    else DumpBuild(rec); Success(Build(rec))
  }

  // ---------------------------------------------------------------------------
  // Normalisation: filter_adzuna_ad
  // ---------------------------------------------------------------------------

  /** Where a record field is read from in the raw ad. */
  datatype Source =
    | Copied                                // the top-level key of the same name
    | Nested(parent: string, child: string) // a key of a nested object
    | IdText                                // `str()` of the top-level `id`, "" when absent

  function SourceOf(k: Key): Source
  {
    match k
    case Location => Nested("location", "display_name")
    case Area => Nested("location", "area")
    case Company => Nested("company", "display_name")
    case Label => Nested("category", "label")
    case Tag => Nested("category", "tag")
    case Id => IdText
    case _ => Copied
  }

  /** `ad.get(parent, {})` can be read with `.get`: it is absent or an object. */
  predicate GettableAt(ad: Dict, parent: string)
  {
    parent !in ad || ad[parent].Obj?
  }

  /** The value a field should take, read along its source path. */
  function Expected(ad: Dict, k: Key): Json
  {
    match SourceOf(k)
    case Copied => Get(ad, Name(k))
    case Nested(p, c) => if p in ad && ad[p].Obj? then Get(ad[p].fields, c) else Null
    case IdText => Str(PyStr(GetOr(ad, "id", Str(""))))
  }

  /** `ad.get(parent, {})` used as a dict; any other value has no `.get` and raises. */
  function NestedDict(ad: Dict, parent: string): Result<Dict, string>
  {
    match GetOr(ad, parent, Obj(map[]))
    case Obj(m) => Success(m)
    case _ => Failure(parent)
  }

  /** `filter_adzuna_ad`: flattens one raw ad into the 18 declared fields. A nested
      `location`, `company` or `category` that is present but not an object raises
      when `.get` is called on it; the error names the first such key in the order
      the code reads them. */
  function FilterAdzunaAd(ad: Dict): (r: Result<Record, string>)
    ensures r.Success? <==>
      GettableAt(ad, "location") && GettableAt(ad, "company") && GettableAt(ad, "category")
    ensures r.Failure? ==>
      r.error == if !GettableAt(ad, "location") then "location"
                 else if !GettableAt(ad, "company") then "company"
                 else "category"
    ensures r.Success? ==> forall k :: k in r.value && r.value[k] == Expected(ad, k)
  {
    var location := NestedDict(ad, "location");
    if location.Failure? then Failure(location.error) else
    var company := NestedDict(ad, "company");
    if company.Failure? then Failure(company.error) else
    var category := NestedDict(ad, "category");
    if category.Failure? then Failure(category.error) else
    FlattenMatchesSources(ad);
    Success(Flatten(ad, location.value, company.value, category.value))
  }

  /** The dict literal of `filter_adzuna_ad`, given the three nested dicts it reads. */
  function Flatten(ad: Dict, location: Dict, company: Dict, category: Dict): (rec: Record)
    ensures forall k :: k in rec && rec[k] == FlattenField(ad, location, company, category, k)
  {
    assert forall k :: k in AllKeys by {
      forall k ensures k in AllKeys { DeclaredIsComplete(k); }
    }
    map k | k in AllKeys :: FlattenField(ad, location, company, category, k)
  }

  /** One entry of that dict literal. */
  function FlattenField(ad: Dict, location: Dict, company: Dict, category: Dict, k: Key): Json
  {
    match k
    case Title => Get(ad, "title")
    case Created => Get(ad, "created")
    case SalaryIsPredicted => Get(ad, "salary_is_predicted")
    case SalaryMin => Get(ad, "salary_min")
    case SalaryMax => Get(ad, "salary_max")
    case Latitude => Get(ad, "latitude")
    case Longitude => Get(ad, "longitude")
    case Location => Get(location, "display_name")
    case Area => Get(location, "area")
    case Id => Str(PyStr(GetOr(ad, "id", Str(""))))
    case Adref => Get(ad, "adref")
    case RedirectUrl => Get(ad, "redirect_url")
    case Company => Get(company, "display_name")
    case Description => Get(ad, "description")
    case ContractType => Get(ad, "contract_type")
    case ContractTime => Get(ad, "contract_time")
    case Label => Get(category, "label")
    case Tag => Get(category, "tag")
  }

  /** The flattened dict agrees with Expected on every field. */
  lemma FlattenMatchesSources(ad: Dict)
    requires GettableAt(ad, "location") && GettableAt(ad, "company") && GettableAt(ad, "category")
    ensures forall k ::
      FlattenField(ad, NestedDict(ad, "location").value, NestedDict(ad, "company").value,
                   NestedDict(ad, "category").value, k) == Expected(ad, k)
  {
  }

  // ---------------------------------------------------------------------------
  // One ad, a list of ads: AdzunaAd(**filter_adzuna_ad(ad)) and model_adzuna_ad_data
  // ---------------------------------------------------------------------------

  /** Why one raw ad could not be turned into an AdzunaAd. */
  datatype AdError =
    | NotAnObject                // `.get` called on an entry that is not an object
    | NotADict(parent: string)   // `.get` called on a nested value that is not an object
    | Invalid(fields: seq<Key>)  // the validation error, with every failing field

  /** `AdzunaAd(**filter_adzuna_ad(ad))`. */
  function ParseAd(ad: Dict): (r: Result<AdzunaAd, AdError>)
    ensures r.Success? <==> FilterAdzunaAd(ad).Success? && Conforms(FilterAdzunaAd(ad).value)
    ensures r.Success? ==> Dump(r.value) == FilterAdzunaAd(ad).value
    ensures r.Failure? && r.error.NotADict? ==> FilterAdzunaAd(ad) == Failure(r.error.parent)
    ensures FilterAdzunaAd(ad).Failure? ==> r == Failure(NotADict(FilterAdzunaAd(ad).error))
    ensures FilterAdzunaAd(ad).Success? && !Conforms(FilterAdzunaAd(ad).value) ==>
      r == Failure(Invalid(Validate(FilterAdzunaAd(ad).value).error))
  {
    match FilterAdzunaAd(ad)
    case Failure(parent) => Failure(NotADict(parent))
    case Success(rec) =>
      match Validate(rec)
      case Success(a) => Success(a)
      case Failure(fs) => Failure(Invalid(fs))
  }

  /** An ad rejected by validation names exactly the fields of its normalised record
      that fail. */
  lemma InvalidAdNamesFailingFields(ad: Dict)
    requires ParseAd(ad).Failure? && ParseAd(ad).error.Invalid?
    ensures FilterAdzunaAd(ad).Success?
    ensures forall k :: k in ParseAd(ad).error.fields <==> !FieldOk(k, FilterAdzunaAd(ad).value)
    ensures ParseAd(ad).error.fields != []
  {
  }

  /** The exception a list comprehension raises: the first element that fails, and why. */
  datatype BatchError<E> = BatchError(index: nat, cause: E)

  /** Evaluating a list comprehension whose elements may raise: all the values, in order,
      or the first exception. */
  function Sequence<T, E>(results: seq<Result<T, E>>): (r: Result<seq<T>, BatchError<E>>)
    ensures r.Success? <==> forall i :: 0 <= i < |results| ==> results[i].Success?
    ensures r.Success? ==>
      |r.value| == |results| && forall i :: 0 <= i < |results| ==> results[i] == Success(r.value[i])
    ensures r.Failure? ==>
      && r.error.index < |results|
      && results[r.error.index] == Failure(r.error.cause)
      && forall i :: 0 <= i < r.error.index ==> results[i].Success?
  {
    if results == [] then Success([])
    else
      var rest := Sequence(results[1..]);
      assert forall i :: 1 <= i < |results| ==> results[i] == results[1..][i - 1];
      match results[0]
      case Failure(e) => Failure(BatchError(0, e))
      case Success(a) =>
        match rest
        case Failure(e) => Failure(BatchError(e.index + 1, e.cause))
        case Success(more) => Success([a] + more)
  }

  /** One entry of the API's `results` list, which need not be an object. */
  function ParseEntry(entry: Json): Result<AdzunaAd, AdError>
  {
    if entry.Obj? then ParseAd(entry.fields) else Failure(NotAnObject)
  }

  /** The parsed entries of a list, one per entry. */
  function Parsed(ads: seq<Json>): seq<Result<AdzunaAd, AdError>>
  {
    seq(|ads|, i requires 0 <= i < |ads| => ParseEntry(ads[i]))
  }

  /** `model_adzuna_ad_data`: every ad parsed, in order; the first failure fails the whole list. */
  function ModelAdzunaAdData(ads: seq<Json>): (r: Result<seq<AdzunaAd>, BatchError<AdError>>)
    ensures r.Success? <==> forall i :: 0 <= i < |ads| ==> ParseEntry(ads[i]).Success?
    ensures r.Success? ==>
      |r.value| == |ads| && forall i :: 0 <= i < |ads| ==> ParseEntry(ads[i]) == Success(r.value[i])
    ensures r.Failure? ==>
      && r.error.index < |ads|
      && ParseEntry(ads[r.error.index]) == Failure(r.error.cause)
      && forall i :: 0 <= i < r.error.index ==> ParseEntry(ads[i]).Success?
  {
    var parsed := Parsed(ads);
    assert |parsed| == |ads| && forall i :: 0 <= i < |ads| ==> parsed[i] == ParseEntry(ads[i]);
    Sequence(parsed)
  }

  // ---------------------------------------------------------------------------
  // is_internship
  // ---------------------------------------------------------------------------

  /** The words whose occurrence in a title marks an internship or a work-study ad. */
  const InternshipWords: seq<string> := ["alternance", "Alternance", "stage", "Stage"]

  /** `is_internship`: the title contains one of the words, matched case-sensitively. */
  function IsInternship(ad: AdzunaAd): (r: bool)
    ensures r <==> exists w, i :: w in InternshipWords && OccursAt(w, ad.title, i)
  {
    var r := Contains(ad.title, "alternance") || Contains(ad.title, "Alternance")
      || Contains(ad.title, "stage") || Contains(ad.title, "Stage");
    assert r ==> exists w, i :: w in InternshipWords && OccursAt(w, ad.title, i);
    r
  }

  // ---------------------------------------------------------------------------
  // Properties
  // ---------------------------------------------------------------------------

  /** Validation is a left inverse of dumping: a dumped record validates back to itself. */
  lemma ValidateDump(a: AdzunaAd)
    ensures Validate(Dump(a)) == Success(a)
  {
    DumpConforms(a);
    DumpInjective(Validate(Dump(a)).value, a);
  }

  lemma DumpConforms(a: AdzunaAd)
    ensures Conforms(Dump(a))
  {
    forall k ensures FieldOk(k, Dump(a)) {
      DumpFieldAccepted(a, k);
    }
  }

  /** Each dumped field is of the kind its field declares, and null only if optional. */
  lemma DumpFieldAccepted(a: AdzunaAd, k: Key)
    ensures DumpField(a, k).Null? ==> !Required(k)
    ensures !DumpField(a, k).Null? ==> Accepts(KindOf(k), DumpField(a, k))
  {
    if k == Area {
      assert DumpField(a, Area) == TextsJson(a.area);
    }
  }

  lemma OptNumberJsonInjective(o1: Option<Number>, o2: Option<Number>)
    requires OptNumberJson(o1) == OptNumberJson(o2)
    ensures o1 == o2
  {
  }

  lemma OptTextJsonInjective(o1: Option<string>, o2: Option<string>)
    requires OptTextJson(o1) == OptTextJson(o2)
    ensures o1 == o2
  {
  }

  lemma TextsJsonInjective(t1: seq<string>, t2: seq<string>)
    requires TextsJson(t1) == TextsJson(t2)
    ensures t1 == t2
  {
    assert |t1| == |TextsJson(t1).items|;
    forall j | 0 <= j < |t1| ensures t1[j] == t2[j] {
      assert TextsJson(t1).items[j] == TextsJson(t2).items[j];
    }
  }

  /** Dumping loses nothing: different records dump to different dicts. */
  lemma DumpInjective(a: AdzunaAd, b: AdzunaAd)
    requires Dump(a) == Dump(b)
    ensures a == b
  {
    assert forall k :: DumpField(a, k) == DumpField(b, k) by {
      forall k ensures DumpField(a, k) == DumpField(b, k) {
        assert Dump(a)[k] == Dump(b)[k];
      }
    }
    FieldsDetermineRecord(a, b);
  }

  lemma FieldsDetermineRecord(a: AdzunaAd, b: AdzunaAd)
    requires forall k :: DumpField(a, k) == DumpField(b, k)
    ensures a == b
  {
    TextFieldsDetermined(a, b);
    OptionalFieldsDetermined(a, b);
  }

  lemma TextFieldsDetermined(a: AdzunaAd, b: AdzunaAd)
    requires forall k :: DumpField(a, k) == DumpField(b, k)
    ensures a.title == b.title && a.created == b.created && a.salaryIsPredicted == b.salaryIsPredicted
    ensures a.location == b.location && a.id == b.id && a.adref == b.adref && a.redirectUrl == b.redirectUrl
    ensures a.description == b.description && a.categoryLabel == b.categoryLabel && a.categoryTag == b.categoryTag
  {
    assert DumpField(a, Title) == DumpField(b, Title);
    assert DumpField(a, Created) == DumpField(b, Created);
    assert DumpField(a, SalaryIsPredicted) == DumpField(b, SalaryIsPredicted);
    assert DumpField(a, Location) == DumpField(b, Location);
    assert DumpField(a, Id) == DumpField(b, Id);
    assert DumpField(a, Adref) == DumpField(b, Adref);
    assert DumpField(a, RedirectUrl) == DumpField(b, RedirectUrl);
    assert DumpField(a, Description) == DumpField(b, Description);
    assert DumpField(a, Label) == DumpField(b, Label);
    assert DumpField(a, Tag) == DumpField(b, Tag);
  }

  lemma OptionalFieldsDetermined(a: AdzunaAd, b: AdzunaAd)
    requires forall k :: DumpField(a, k) == DumpField(b, k)
    ensures a.salaryMin == b.salaryMin && a.salaryMax == b.salaryMax
    ensures a.latitude == b.latitude && a.longitude == b.longitude && a.area == b.area
    ensures a.company == b.company && a.contractType == b.contractType && a.contractTime == b.contractTime
  {
    OptNumberJsonInjective(a.salaryMin, b.salaryMin) by { assert DumpField(a, SalaryMin) == DumpField(b, SalaryMin); }
    OptNumberJsonInjective(a.salaryMax, b.salaryMax) by { assert DumpField(a, SalaryMax) == DumpField(b, SalaryMax); }
    OptNumberJsonInjective(a.latitude, b.latitude) by { assert DumpField(a, Latitude) == DumpField(b, Latitude); }
    OptNumberJsonInjective(a.longitude, b.longitude) by { assert DumpField(a, Longitude) == DumpField(b, Longitude); }
    OptTextJsonInjective(a.company, b.company) by { assert DumpField(a, Company) == DumpField(b, Company); }
    OptTextJsonInjective(a.contractType, b.contractType) by { assert DumpField(a, ContractType) == DumpField(b, ContractType); }
    OptTextJsonInjective(a.contractTime, b.contractTime) by { assert DumpField(a, ContractTime) == DumpField(b, ContractTime); }
    TextsJsonInjective(a.area, b.area) by { assert DumpField(a, Area) == DumpField(b, Area); }
  }

  /** The key a keyword argument name stands for. */
  function KeyNamed(name: string): (r: Option<Key>)
  {
    if name == "title" then Some(Title)
    else if name == "created" then Some(Created)
    else if name == "salary_is_predicted" then Some(SalaryIsPredicted)
    else if name == "salary_min" then Some(SalaryMin)
    else if name == "salary_max" then Some(SalaryMax)
    else if name == "latitude" then Some(Latitude)
    else if name == "longitude" then Some(Longitude)
    else if name == "area" then Some(Area)
    else if name == "location" then Some(Location)
    else if name == "id" then Some(Id)
    else if name == "adref" then Some(Adref)
    else if name == "redirect_url" then Some(RedirectUrl)
    else if name == "company" then Some(Company)
    else if name == "description" then Some(Description)
    else if name == "contract_type" then Some(ContractType)
    else if name == "contract_time" then Some(ContractTime)
    else if name == "label" then Some(Label)
    else if name == "tag" then Some(Tag)
    else None
  }

  /** Each field has its own name, so the produced dict has 18 distinct keys. */
  lemma KeyNamedName(k: Key)
    ensures KeyNamed(Name(k)) == Some(k)
  {
    match k
    case Title =>
    case Created =>
    case SalaryIsPredicted =>
    case SalaryMin =>
    case SalaryMax =>
    case Latitude =>
    case Longitude =>
    case Area =>
    case Location =>
    case Id =>
    case Adref =>
    case RedirectUrl =>
    case Company =>
    case Description =>
    case ContractType =>
    case ContractTime =>
    case Label =>
    case Tag =>
  }

  lemma NamesDistinct(k1: Key, k2: Key)
    requires k1 != k2
    ensures Name(k1) != Name(k2)
  {
    KeyNamedName(k1);
    KeyNamedName(k2);
  }

  /** The id field of the normalised record: `str()` of the raw id, or `""` without one. */
  lemma IdIsAlwaysText(ad: Dict)
    requires FilterAdzunaAd(ad).Success?
    ensures FilterAdzunaAd(ad).value[Id].Str?
    ensures "id" !in ad ==> FilterAdzunaAd(ad).value[Id] == Str("")
    ensures "id" in ad && ad["id"].Str? ==> FilterAdzunaAd(ad).value[Id] == ad["id"]
    ensures "id" in ad && ad["id"].Int? ==> TextToInt(FilterAdzunaAd(ad).value[Id].s) == ad["id"].i
  {
  }

  /** The numeric id 12345 and the textual id "12345" normalise to the same text. */
  lemma NumericAndTextualIdAgree()
    ensures FilterAdzunaAd(map["id" := Int(12345)]).Success?
    ensures FilterAdzunaAd(map["id" := Int(12345)]).value[Id] == Str("12345")
    ensures FilterAdzunaAd(map["id" := Str("12345")]).Success?
    ensures FilterAdzunaAd(map["id" := Str("12345")]).value[Id] == Str("12345")
  {
    IdDigits();
    assert Expected(map["id" := Int(12345)], Id) == Str("12345");
  }

  lemma IdDigits()
    ensures IntToText(12345) == "12345"
  {
    assert NatToText(1) == "1";
    assert NatToText(12) == "12";
    assert NatToText(123) == "123";
    assert NatToText(1234) == "1234";
    assert NatToText(12345) == "12345";
  }

  /** The id can never make an ad fail validation. */
  lemma IdNeverFails(rec: Record, text: string)
    requires forall k :: k in rec
    ensures FieldOk(Id, rec[Id := Str(text)])
    ensures Conforms(rec[Id := Str(text)]) <==> forall k :: k != Id ==> FieldOk(k, rec)
  {
    var rec' := rec[Id := Str(text)];
    assert forall k :: k != Id ==> (FieldOk(k, rec') <==> FieldOk(k, rec));
    assert FieldOk(Id, rec');
  }

  /** Dropping `id` from a raw ad leaves every other field's source as it was. */
  lemma ExpectedWithoutId(ad: Dict, k: Key)
    requires k != Id
    ensures Expected(ad - {"id"}, k) == Expected(ad, k)
  {
    NamesDistinct(k, Id);
    assert "location" != "id" && "company" != "id" && "category" != "id";
  }

  /** Dropping `id` from a raw ad changes the normalised record only at Id. */
  lemma FilterWithoutId(ad: Dict)
    ensures FilterAdzunaAd(ad - {"id"}).Success? <==> FilterAdzunaAd(ad).Success?
    ensures FilterAdzunaAd(ad).Success? ==>
      FilterAdzunaAd(ad - {"id"}).value == FilterAdzunaAd(ad).value[Id := Str("")]
  {
    var ad' := ad - {"id"};
    assert "location" != "id" && "company" != "id" && "category" != "id";
    assert GettableAt(ad', "location") == GettableAt(ad, "location");
    assert GettableAt(ad', "company") == GettableAt(ad, "company");
    assert GettableAt(ad', "category") == GettableAt(ad, "category");
    if FilterAdzunaAd(ad).Success? {
      var rec, rec' := FilterAdzunaAd(ad).value, FilterAdzunaAd(ad').value;
      forall k ensures rec'[k] == rec[Id := Str("")][k] {
        if k != Id {
          ExpectedWithoutId(ad, k);
        }
      }
      assert rec' == rec[Id := Str("")];
    }
  }

  /** Two records that agree off one key, and both pass at that key, conform alike. */
  lemma ConformsOffKey(r1: Record, r2: Record, key: Key)
    requires FieldOk(key, r1) && FieldOk(key, r2)
    requires forall k :: k != key ==> k in r1 && k in r2 && r1[k] == r2[k]
    ensures Conforms(r1) <==> Conforms(r2)
  {
    assert forall k :: k != key ==> (FieldOk(k, r1) <==> FieldOk(k, r2));
  }

  /** Replacing the id leaves every other field's dump as it was. */
  lemma DumpFieldOffId(a: AdzunaAd, text: string, k: Key)
    requires k != Id
    ensures DumpField(a.(id := text), k) == DumpField(a, k)
  {
  }

  /** Without `id`, the normalised record conforms exactly when the one with it does. */
  lemma WithoutIdConforms(ad: Dict)
    requires FilterAdzunaAd(ad).Success?
    ensures FilterAdzunaAd(ad - {"id"}).Success?
    ensures Conforms(FilterAdzunaAd(ad - {"id"}).value) <==> Conforms(FilterAdzunaAd(ad).value)
  {
    FilterWithoutId(ad);
    var rec := FilterAdzunaAd(ad).value;
    IdIsAlwaysText(ad);
    IdNeverFails(rec, "");
    IdNeverFails(rec, rec[Id].s);
    assert rec[Id := Str(rec[Id].s)] == rec;
  }

  /** Setting the id of an ad sets the Id entry of its dump and nothing else. */
  lemma DumpWithId(a: AdzunaAd, text: string)
    ensures Dump(a.(id := text)) == Dump(a)[Id := Str(text)]
  {
    forall k ensures Dump(a.(id := text))[k] == Dump(a)[Id := Str(text)][k] {
      if k != Id {
        DumpFieldOffId(a, text, k);
      }
    }
  }

  /** Without `id`, the validated ad is the one with it, its id emptied. */
  lemma WithoutIdValidates(ad: Dict)
    requires FilterAdzunaAd(ad).Success? && Conforms(FilterAdzunaAd(ad).value)
    ensures FilterAdzunaAd(ad - {"id"}).Success?
    ensures Validate(FilterAdzunaAd(ad - {"id"}).value) ==
            Success(Validate(FilterAdzunaAd(ad).value).value.(id := ""))
  {
    FilterWithoutId(ad);
    var rec := FilterAdzunaAd(ad).value;
    var a := Validate(rec).value;
    DumpWithId(a, "");
    ValidateDump(a.(id := ""));
  }

  /** A raw ad without an `id` is parsed exactly as it would be with one, except that
      its id is the empty string. */
  lemma MissingIdStillParses(ad: Dict)
    ensures ParseAd(ad - {"id"}).Success? <==> ParseAd(ad).Success?
    ensures ParseAd(ad).Success? ==> ParseAd(ad - {"id"}).value == ParseAd(ad).value.(id := "")
  {
    FilterWithoutId(ad);
    if FilterAdzunaAd(ad).Success? {
      WithoutIdConforms(ad);
      if Conforms(FilterAdzunaAd(ad).value) {
        WithoutIdValidates(ad);
      }
    }
  }

  /** Where a field's source path is missing from the raw ad. */
  predicate PathMissing(ad: Dict, k: Key)
  {
    match SourceOf(k)
    case Copied => Name(k) !in ad
    case Nested(p, c) => p !in ad || (ad[p].Obj? && c !in ad[p].fields)
    case IdText => false
  }

  /** A missing field or nested object does not raise: the field is null. */
  lemma MissingPathGivesNull(ad: Dict, k: Key)
    requires PathMissing(ad, k)
    requires FilterAdzunaAd(ad).Success?
    ensures FilterAdzunaAd(ad).value[k] == Null
  {
  }

  /** A value present at a field's source path is taken over unchanged. */
  lemma PresentPathCopied(ad: Dict, k: Key)
    requires FilterAdzunaAd(ad).Success?
    ensures SourceOf(k).Copied? && Name(k) in ad ==> FilterAdzunaAd(ad).value[k] == ad[Name(k)]
    ensures SourceOf(k).Nested? && SourceOf(k).parent in ad &&
            SourceOf(k).child in ad[SourceOf(k).parent].fields ==>
      FilterAdzunaAd(ad).value[k] == ad[SourceOf(k).parent].fields[SourceOf(k).child]
  {
    if SourceOf(k).Nested? && SourceOf(k).parent in ad {
      assert GettableAt(ad, SourceOf(k).parent);
    }
  }

  /** When every normalised value is null or of its declared type, an ad is built
      exactly when none of the required fields is null. */
  lemma BuiltIffRequiredPresent(ad: Dict)
    requires FilterAdzunaAd(ad).Success?
    requires var rec := FilterAdzunaAd(ad).value;
      forall k :: rec[k].Null? || Accepts(KindOf(k), rec[k])
    ensures var rec := FilterAdzunaAd(ad).value;
      ParseAd(ad).Success? <==> forall k :: Required(k) ==> !rec[k].Null?
  {
    var rec := FilterAdzunaAd(ad).value;
    assert forall k :: FieldOk(k, rec) <==> (Required(k) ==> !rec[k].Null?);
  }

  /** A raw ad missing the source of a required field is rejected, and the
      validation error names that field. */
  lemma MissingRequiredFails(ad: Dict, k: Key)
    requires Required(k) && PathMissing(ad, k)
    requires FilterAdzunaAd(ad).Success?
    ensures ParseAd(ad).Failure? && ParseAd(ad).error.Invalid? && k in ParseAd(ad).error.fields
  {
    var rec := FilterAdzunaAd(ad).value;
    MissingPathGivesNull(ad, k);
    assert !FieldOk(k, rec);
    var v := Validate(rec);
    assert v.Failure? && k in v.error;
    assert ParseAd(ad) == Failure(Invalid(v.error));
  }

  /** Replacing the `company` object leaves every field but Company's source as it was. */
  lemma ExpectedWithoutCompany(ad: Dict, other: Dict, k: Key)
    requires k != Company
    ensures Expected(ad - {"company"}, k) == Expected(ad["company" := Obj(other)], k)
  {
    NamesDistinct(k, Company);
    assert "location" != "company" && "category" != "company";
  }

  /** Dropping `company` from a raw ad changes the normalised record only at Company,
      which becomes null. */
  lemma FilterWithoutCompany(ad: Dict, name: string)
    ensures FilterAdzunaAd(ad - {"company"}).Success? <==>
            FilterAdzunaAd(ad["company" := Obj(map["display_name" := Str(name)])]).Success?
    ensures FilterAdzunaAd(ad - {"company"}).Success? ==>
      var r0 := FilterAdzunaAd(ad - {"company"}).value;
      var r1 := FilterAdzunaAd(ad["company" := Obj(map["display_name" := Str(name)])]).value;
      && r0[Company] == Null && r1[Company] == Str(name)
      && forall k :: k != Company ==> r0[k] == r1[k]
  {
    var other := map["display_name" := Str(name)];
    var without, with := ad - {"company"}, ad["company" := Obj(other)];
    assert "location" != "company" && "category" != "company";
    assert GettableAt(without, "location") == GettableAt(with, "location");
    assert GettableAt(without, "category") == GettableAt(with, "category");
    assert GettableAt(without, "company") && GettableAt(with, "company");
    if FilterAdzunaAd(without).Success? {
      var r0, r1 := FilterAdzunaAd(without).value, FilterAdzunaAd(with).value;
      forall k | k != Company ensures r0[k] == r1[k] {
        ExpectedWithoutCompany(ad, other, k);
      }
    }
  }

  /** Without a `company` object an ad is accepted or rejected just as with a
      named company, and the accepted ad has no company. */
  lemma CompanyIsOptional(ad: Dict, name: string)
    ensures ParseAd(ad - {"company"}).Success? <==>
            ParseAd(ad["company" := Obj(map["display_name" := Str(name)])]).Success?
    ensures ParseAd(ad - {"company"}).Success? ==> ParseAd(ad - {"company"}).value.company == None
  {
    var without, with := ad - {"company"}, ad["company" := Obj(map["display_name" := Str(name)])];
    FilterWithoutCompany(ad, name);
    if FilterAdzunaAd(with).Success? {
      ConformsOffKey(FilterAdzunaAd(without).value, FilterAdzunaAd(with).value, Company);
    }
    if ParseAd(without).Success? {
      NullCompanyDumped(ParseAd(without).value);
    }
  }

  /** An ad whose dump has a null company has no company. */
  lemma NullCompanyDumped(a: AdzunaAd)
    requires Dump(a)[Company] == Null
    ensures a.company == None
  {
    assert DumpField(a, Company) == Null;
  }

  /** A title no longer than a word and different from it does not contain it. */
  lemma NotContainedUnlessEqual(title: string, word: string)
    requires |title| <= |word| && title != word
    ensures !Contains(title, word)
  {
  }

  /** The internship test is case-sensitive and matches anywhere in the title. */
  lemma InternshipTitles(a: AdzunaAd, b: AdzunaAd, c: AdzunaAd)
    requires a.title == "Data analyst en alternance"
    requires b.title == "Stage"
    requires c.title == "STAGE"
    ensures IsInternship(a) && IsInternship(b) && !IsInternship(c)
  {
    assert a.title[16..26] == "alternance";
    assert OccursAt("alternance", a.title, 16);
    assert c.title[0] != "stage"[0] && c.title[1] != "Stage"[1];
    NotContainedUnlessEqual(c.title, "alternance");
    NotContainedUnlessEqual(c.title, "Alternance");
    NotContainedUnlessEqual(c.title, "stage");
    NotContainedUnlessEqual(c.title, "Stage");
  }
}
