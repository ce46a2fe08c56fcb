/** The upstream match records, their decoding from JSON with lower-camel or PascalCase
    field names, and the kickoff precedence (the UTC string wins, the offset-less local string
    read in Europe/Berlin is the fallback). */
module Models {
  import opened Basics
  import opened Text
  import opened Calendar

  datatype Platform = Android | Ios

  /** A parsed JSON document. Object members keep their document order. */
  datatype Json =
    | JNull
    | JBool(b: bool)
    | JNumber(n: int)
    | JString(s: string)
    | JArray(items: seq<Json>)
    | JObject(members: seq<Member>)

  datatype Member = Member(key: string, value: Json)

  datatype TeamRef = TeamRef(teamName: Option<string>)

  datatype MatchResult = MatchResult(resultTypeId: Option<int>, pointsTeam1: Option<int>, pointsTeam2: Option<int>)

  datatype OpenLigaMatch = OpenLigaMatch(
    matchDateTimeUtc: Option<string>,
    matchDateTime: Option<string>,
    team1: Option<TeamRef>,
    team2: Option<TeamRef>,
    matchResults: Option<seq<MatchResult>>)

  /** The value of the last member whose key is in `names`. */
  function LastWith(members: seq<Member>, names: set<string>): (r: Option<Json>)
    ensures r.None? <==> forall i :: 0 <= i < |members| ==> members[i].key !in names
    ensures r.Some? ==> exists i :: (0 <= i < |members| && members[i].key in names && r.value == members[i].value
      && forall j :: i < j < |members| ==> members[j].key !in names)
  {
    if |members| == 0 then None
    else if members[|members| - 1].key in names then Some(members[|members| - 1].value)
    else LastWith(members[..|members| - 1], names)
  }

  /** The value of the first member whose key is in `names`: Foundation's `JSONDecoder` keeps
      the first occurrence of a key that an object repeats. */
  function FirstWith(members: seq<Member>, names: set<string>): (r: Option<Json>)
    ensures r.None? <==> forall i :: 0 <= i < |members| ==> members[i].key !in names
    ensures r.Some? ==> exists i :: (0 <= i < |members| && members[i].key in names && r.value == members[i].value
      && forall j :: 0 <= j < i ==> members[j].key !in names)
  {
    if |members| == 0 then None
    else if members[0].key in names then Some(members[0].value)
    else
      var r := FirstWith(members[1..], names);
      assert r.Some? ==> exists i :: (0 <= i < |members| && members[i].key in names && r.value == members[i].value
        && forall j :: 0 <= j < i ==> members[j].key !in names) by {
        if r.Some? {
          var i :| 0 <= i < |members[1..]| && members[1..][i].key in names && r.value == members[1..][i].value
            && forall j :: 0 <= j < i ==> members[1..][j].key !in names;
          assert forall j :: 0 <= j < i + 1 ==> members[j].key !in names by {
            forall j | 0 <= j < i + 1 ensures members[j].key !in names {
              if j > 0 { assert members[j] == members[1..][j - 1]; }
            }
          }
        }
      }
      r
  }

  /** `decodeIfPresent`'s view of one key: absent, or present with JSON null, reads as nothing.
      A repeated key is read at its first occurrence. */
  function Present(members: seq<Member>, key: string): Option<Json> {
    match FirstWith(members, {key})
    case Some(JNull) => None
    case other => other
  }

  /** The JSON value a field is decoded from, given its name and its alternate spelling.
      Android (Gson `@SerializedName(value, alternate)`): the last member with either name, a
      JSON null meaning null. iOS (`decodeIfPresent(name) ?? decodeIfPresent(alt)`): the first
      name when present and not null, otherwise the alternate, each key read at its first
      occurrence. */
  function Pick(p: Platform, members: seq<Member>, name: string, alt: string): (r: Option<Json>)
    ensures r.Some? ==> r.value != JNull
    ensures r.Some? ==> exists i :: (0 <= i < |members| && (members[i].key == name || members[i].key == alt)
      && members[i].value == r.value)
  {
    match p
    case Android =>
      (match LastWith(members, {name, alt})
       case Some(JNull) => None
       case other => other)
    case Ios =>
      (match Present(members, name)
       case Some(v) => Some(v)
       case None => Present(members, alt))
  }

  /** Whether a member spells the field, is not null, and fails to decode. Gson reads every such
      member in document order, so one of them is enough to fail the whole object on Android. */
  function Breaks<T>(name: string, alt: string, decode: Json -> Result<T>): Member -> bool {
    (m: Member) => (m.key == name || m.key == alt) && m.value != JNull && decode(m.value).Err?
  }

  /** One optional field. iOS decodes only the picked value; Android decodes every member that
      spells the field (the last one is kept) and fails on the first that does not decode. */
  function Field<T>(p: Platform, members: seq<Member>, name: string, alt: string, decode: Json -> Result<T>): (r: Result<Option<T>>)
    ensures p.Ios? && Pick(p, members, name, alt).None? ==> r == Ok(None)
    ensures p.Ios? && Pick(p, members, name, alt).Some? ==> (r.Ok? <==> decode(Pick(p, members, name, alt).value).Ok?)
    ensures p.Android? ==> (r.Ok? <==> forall i :: 0 <= i < |members| ==> !Breaks(name, alt, decode)(members[i]))
    ensures p.Android? && r.Err? ==> exists i :: (0 <= i < |members| && Breaks(name, alt, decode)(members[i])
      && r.message == decode(members[i].value).message
      && forall j :: 0 <= j < i ==> !Breaks(name, alt, decode)(members[j]))
    ensures r.Ok? && Pick(p, members, name, alt).None? ==> r.value == None
    ensures r.Ok? && Pick(p, members, name, alt).Some? ==>
      decode(Pick(p, members, name, alt).value).Ok? && r.value == Some(decode(Pick(p, members, name, alt).value).value)
  {
    var picked :=
      match Pick(p, members, name, alt)
      case None => Ok(None)
      case Some(v) =>
        (match decode(v)
         case Ok(x) => Ok(Some(x))
         case Err(e) => Err(e));
    if p.Ios? then picked
    else
      match FirstIndex(members, Breaks(name, alt, decode))
      case Some(i) => Err(decode(members[i].value).message)
      case None => picked
  }

  /** Both 32-bit Kotlin `Int` and 64-bit Swift `Int` reject a number they cannot hold. */
  predicate FitsInt(p: Platform, n: int) {
    match p
    case Android => -0x8000_0000 <= n < 0x8000_0000
    case Ios => -0x8000_0000_0000_0000 <= n < 0x8000_0000_0000_0000
  }

  /** A string field. Gson's string adapter also accepts a number (as its literal text) and a
      boolean; Swift's decoder accepts only a JSON string. */
  function AsString(p: Platform, j: Json): (r: Result<string>)
    ensures r.Ok? <==> j.JString? || (p.Android? && (j.JNumber? || j.JBool?))
    ensures j.JString? ==> r == Ok(j.s)
    ensures p.Android? && j.JNumber? && j.n >= 0 ==> r.Ok? && AllDigits(r.value) && DecimalValue(r.value) == j.n
    ensures p.Android? && j.JNumber? && j.n < 0 ==>
      r.Ok? && |r.value| >= 2 && r.value[0] == '-' && AllDigits(r.value[1..]) && DecimalValue(r.value[1..]) == -j.n
    ensures p.Android? && j.JBool? ==> r == Ok(if j.b then "true" else "false")
  {
    match j
    case JString(s) => Ok(s)
    case JNumber(n) =>
      if p.Android? then
        DecimalRoundTrip(if n < 0 then -n else n);
        assert n < 0 ==> IntToDecimal(n)[1..] == NatToDecimal(-n);
        Ok(IntToDecimal(n))
      else Err("expected a string")
    case JBool(b) => if p.Android? then Ok(if b then "true" else "false") else Err("expected a string")
    case _ => Err("expected a string")
  }

  /** An integer field: a JSON number the platform's `Int` can hold. */
  function AsInt(p: Platform, j: Json): (r: Result<int>)
    ensures r.Ok? <==> j.JNumber? && FitsInt(p, j.n)
    ensures r.Ok? ==> r.value == j.n
  {
    if j.JNumber? && FitsInt(p, j.n) then Ok(j.n) else Err("expected an integer")
  }

  function StringDecoder(p: Platform): Json -> Result<string> {
    (j: Json) => AsString(p, j)
  }

  function IntDecoder(p: Platform): Json -> Result<int> {
    (j: Json) => AsInt(p, j)
  }

  function DecodeTeam(p: Platform, j: Json): (r: Result<TeamRef>)
    ensures r.Ok? <==> j.JObject? && Field(p, j.members, "teamName", "TeamName", StringDecoder(p)).Ok?
    ensures r.Ok? ==> Field(p, j.members, "teamName", "TeamName", StringDecoder(p)) == Ok(r.value.teamName)
  {
    if !j.JObject? then Err("expected a team object")
    else
      match Field(p, j.members, "teamName", "TeamName", StringDecoder(p))
      case Err(e) => Err(e)
      case Ok(name) => Ok(TeamRef(name))
  }

  function DecodeResult(p: Platform, j: Json): (r: Result<MatchResult>)
    ensures r.Ok? <==>
      && j.JObject?
      && Field(p, j.members, "resultTypeID", "ResultTypeID", IntDecoder(p)).Ok?
      && Field(p, j.members, "pointsTeam1", "PointsTeam1", IntDecoder(p)).Ok?
      && Field(p, j.members, "pointsTeam2", "PointsTeam2", IntDecoder(p)).Ok?
    ensures r.Ok? ==>
      && Field(p, j.members, "resultTypeID", "ResultTypeID", IntDecoder(p)) == Ok(r.value.resultTypeId)
      && Field(p, j.members, "pointsTeam1", "PointsTeam1", IntDecoder(p)) == Ok(r.value.pointsTeam1)
      && Field(p, j.members, "pointsTeam2", "PointsTeam2", IntDecoder(p)) == Ok(r.value.pointsTeam2)
  {
    if !j.JObject? then Err("expected a result object")
    else
      var ms := j.members;
      match Field(p, ms, "resultTypeID", "ResultTypeID", IntDecoder(p))
      case Err(e) => Err(e)
      case Ok(kind) =>
        match Field(p, ms, "pointsTeam1", "PointsTeam1", IntDecoder(p))
        case Err(e) => Err(e)
        case Ok(p1) =>
          match Field(p, ms, "pointsTeam2", "PointsTeam2", IntDecoder(p))
          case Err(e) => Err(e)
          case Ok(p2) => Ok(MatchResult(kind, p1, p2))
  }

  /** The decoder of one result object. */
  function ResultDecoder(p: Platform): Json -> Result<MatchResult> {
    (j: Json) => DecodeResult(p, j)
  }

  function DecodeResults(p: Platform, j: Json): (r: Result<seq<MatchResult>>)
    ensures r.Ok? ==> j.JArray? && |r.value| == |j.items|
    ensures r.Ok? ==> forall i :: 0 <= i < |j.items| ==> DecodeResult(p, j.items[i]) == Ok(r.value[i])
    ensures j.JArray? ==> (r.Ok? <==> forall i :: 0 <= i < |j.items| ==> DecodeResult(p, j.items[i]).Ok?)
  {
    if j.JArray? then MapResult(j.items, ResultDecoder(p)) else Err("expected an array of results")
  }

  function TeamDecoder(p: Platform): Json -> Result<TeamRef> {
    (j: Json) => DecodeTeam(p, j)
  }

  function ResultsDecoder(p: Platform): Json -> Result<seq<MatchResult>> {
    (j: Json) => DecodeResults(p, j)
  }

  const UtcNames := ("matchDateTimeUTC", "MatchDateTimeUTC")
  const LocalNames := ("matchDateTime", "MatchDateTime")
  const Team1Names := ("team1", "Team1")
  const Team2Names := ("team2", "Team2")
  const ResultsNames := ("matchResults", "MatchResults")

  /** One match object of the payload: it decodes exactly when it is an object each of whose
      fields decodes, and each field of the record is that field's decoded value. */
  function DecodeMatch(p: Platform, j: Json): (r: Result<OpenLigaMatch>)
    ensures r.Ok? <==>
      && j.JObject?
      && Field(p, j.members, UtcNames.0, UtcNames.1, StringDecoder(p)).Ok?
      && Field(p, j.members, LocalNames.0, LocalNames.1, StringDecoder(p)).Ok?
      && Field(p, j.members, Team1Names.0, Team1Names.1, TeamDecoder(p)).Ok?
      && Field(p, j.members, Team2Names.0, Team2Names.1, TeamDecoder(p)).Ok?
      && Field(p, j.members, ResultsNames.0, ResultsNames.1, ResultsDecoder(p)).Ok?
    ensures r.Ok? ==>
      && Field(p, j.members, UtcNames.0, UtcNames.1, StringDecoder(p)) == Ok(r.value.matchDateTimeUtc)
      && Field(p, j.members, LocalNames.0, LocalNames.1, StringDecoder(p)) == Ok(r.value.matchDateTime)
      && Field(p, j.members, Team1Names.0, Team1Names.1, TeamDecoder(p)) == Ok(r.value.team1)
      && Field(p, j.members, Team2Names.0, Team2Names.1, TeamDecoder(p)) == Ok(r.value.team2)
      && Field(p, j.members, ResultsNames.0, ResultsNames.1, ResultsDecoder(p)) == Ok(r.value.matchResults)
  {
    if !j.JObject? then Err("expected a match object")
    else
      var ms := j.members;
      match Field(p, ms, UtcNames.0, UtcNames.1, StringDecoder(p))
      case Err(e) => Err(e)
      case Ok(utc) =>
        match Field(p, ms, LocalNames.0, LocalNames.1, StringDecoder(p))
        case Err(e) => Err(e)
        case Ok(local) =>
          match Field(p, ms, Team1Names.0, Team1Names.1, TeamDecoder(p))
          case Err(e) => Err(e)
          case Ok(t1) =>
            match Field(p, ms, Team2Names.0, Team2Names.1, TeamDecoder(p))
            case Err(e) => Err(e)
            case Ok(t2) =>
              match Field(p, ms, ResultsNames.0, ResultsNames.1, ResultsDecoder(p))
              case Err(e) => Err(e)
              case Ok(rs) => Ok(OpenLigaMatch(utc, local, t1, t2, rs))
  }

  /** An object that spells none of the match fields (or only with nulls) decodes, on both
      platforms, to a record with every field absent. */
  lemma EmptyMatchObject(p: Platform, j: Json)
    requires j.JObject?
    requires forall i :: 0 <= i < |j.members| && j.members[i].value != JNull ==>
      j.members[i].key !in {UtcNames.0, UtcNames.1, LocalNames.0, LocalNames.1, Team1Names.0, Team1Names.1,
                                 Team2Names.0, Team2Names.1, ResultsNames.0, ResultsNames.1}
    ensures DecodeMatch(p, j) == Ok(OpenLigaMatch(None, None, None, None, None))
  {
    var ms := j.members;
    MissingFieldIsNothing(p, ms, UtcNames.0, UtcNames.1, StringDecoder(p));
    MissingFieldIsNothing(p, ms, LocalNames.0, LocalNames.1, StringDecoder(p));
    MissingFieldIsNothing(p, ms, Team1Names.0, Team1Names.1, TeamDecoder(p));
    MissingFieldIsNothing(p, ms, Team2Names.0, Team2Names.1, TeamDecoder(p));
    MissingFieldIsNothing(p, ms, ResultsNames.0, ResultsNames.1, ResultsDecoder(p));
  }

  /** iOS: a non-null value at the first occurrence of the lower-camel key is taken; later
      occurrences and the alternate are not consulted. */
  lemma IosFirstKeyWins(members: seq<Member>, name: string, alt: string, i: nat)
    requires i < |members| && members[i].key == name && members[i].value != JNull
    requires forall j :: 0 <= j < i ==> members[j].key != name
    ensures Pick(Ios, members, name, alt) == Some(members[i].value)
  {
    var r := FirstWith(members, {name});
    var k :| 0 <= k < |members| && members[k].key in {name} && r.value == members[k].value
      && forall j :: 0 <= j < k ==> members[j].key !in {name};
    assert k == i;
  }

  /** iOS: the PascalCase key is consulted only when the lower-camel key is absent or null. */
  lemma IosAlternateFallback(members: seq<Member>, name: string, alt: string, i: nat)
    requires forall j :: 0 <= j < |members| && members[j].key == name ==> members[j].value == JNull
    requires i < |members| && members[i].key == alt && members[i].value != JNull
    requires forall j :: 0 <= j < i ==> members[j].key != alt
    ensures Pick(Ios, members, name, alt) == Some(members[i].value)
  {
    var n := FirstWith(members, {name});
    if n.Some? {
      var k :| 0 <= k < |members| && members[k].key in {name} && n.value == members[k].value;
    }
    var r := FirstWith(members, {alt});
    var k :| 0 <= k < |members| && members[k].key in {alt} && r.value == members[k].value
      && forall j :: 0 <= j < k ==> members[j].key !in {alt};
    assert k == i;
  }

  /** Android: the field takes the value of whichever spelling comes last in the document. */
  lemma AndroidLastSpellingWins(members: seq<Member>, name: string, alt: string, i: nat)
    requires i < |members| && (members[i].key == name || members[i].key == alt)
    requires members[i].value != JNull
    requires forall j :: i < j < |members| ==> members[j].key != name && members[j].key != alt
    ensures Pick(Android, members, name, alt) == Some(members[i].value)
  {
    var r := LastWith(members, {name, alt});
    var k :| 0 <= k < |members| && members[k].key in {name, alt} && r.value == members[k].value
      && forall j :: k < j < |members| ==> members[j].key !in {name, alt};
    assert k == i;
  }

  /** With neither spelling in the object, or only nulls under them, the field is nothing on
      both platforms and never a decoding error, whatever the field's type. */
  lemma MissingFieldIsNothing<T>(p: Platform, members: seq<Member>, name: string, alt: string, decode: Json -> Result<T>)
    requires forall j :: (0 <= j < |members| && (members[j].key == name || members[j].key == alt)
      ==> members[j].value == JNull)
    ensures Field(p, members, name, alt, decode) == Ok(None)
  {
    LastWithOnlyNulls(members, {name, alt});
    FirstWithOnlyNulls(members, {name});
    FirstWithOnlyNulls(members, {alt});
  }

  /** Where the platforms part: an ill-typed PascalCase spelling next to a good lower-camel one
      fails the object under Gson, which reads both, while Swift never looks at the alternate. */
  lemma ShadowedSpellingIsChecked()
    ensures DecodeResult(Android, JObject([Member("PointsTeam1", JBool(true)), Member("pointsTeam1", JNumber(2))])).Err?
    ensures DecodeResult(Ios, JObject([Member("PointsTeam1", JBool(true)), Member("pointsTeam1", JNumber(2))]))
      == Ok(MatchResult(None, Some(2), None))
  {
    var ms := [Member("PointsTeam1", JBool(true)), Member("pointsTeam1", JNumber(2))];
    assert Breaks("pointsTeam1", "PointsTeam1", IntDecoder(Android))(ms[0]);
    MissingFieldIsNothing(Ios, ms, "resultTypeID", "ResultTypeID", IntDecoder(Ios));
    MissingFieldIsNothing(Ios, ms, "pointsTeam2", "PointsTeam2", IntDecoder(Ios));
    IosFirstKeyWins(ms, "pointsTeam1", "PointsTeam1", 1);
  }

  /** When every member carrying one of `names` holds null, the read value is null or absent. */
  lemma LastWithOnlyNulls(members: seq<Member>, names: set<string>)
    requires forall j :: 0 <= j < |members| && members[j].key in names ==> members[j].value == JNull
    ensures LastWith(members, names) in {None, Some(JNull)}
  {
    var r := LastWith(members, names);
    if r.Some? {
      var i :| 0 <= i < |members| && members[i].key in names && r.value == members[i].value;
    }
  }

  /** The same for the first member carrying one of `names`. */
  lemma FirstWithOnlyNulls(members: seq<Member>, names: set<string>)
    requires forall j :: 0 <= j < |members| && members[j].key in names ==> members[j].value == JNull
    ensures FirstWith(members, names) in {None, Some(JNull)}
  {
    var r := FirstWith(members, names);
    if r.Some? {
      var i :| 0 <= i < |members| && members[i].key in names && r.value == members[i].value;
    }
  }

  /** At most one member spells the field, either way. */
  predicate SingleSpelling(members: seq<Member>, name: string, alt: string) {
    forall i, j :: 0 <= i < j < |members| && (members[i].key == name || members[i].key == alt)
      ==> members[j].key != name && members[j].key != alt
  }

  /** A field spelled by exactly one member reads that member's value. */
  lemma LastWithSingle(members: seq<Member>, names: set<string>, k: nat)
    requires k < |members| && members[k].key in names
    requires forall j :: 0 <= j < |members| && j != k ==> members[j].key !in names
    ensures LastWith(members, names) == Some(members[k].value)
  {
    var r := LastWith(members, names);
    var i :| 0 <= i < |members| && members[i].key in names && r.value == members[i].value;
    assert i == k;
  }

  /** A field spelled by exactly one member is read there at its first occurrence too. */
  lemma FirstWithSingle(members: seq<Member>, names: set<string>, k: nat)
    requires k < |members| && members[k].key in names
    requires forall j :: 0 <= j < |members| && j != k ==> members[j].key !in names
    ensures FirstWith(members, names) == Some(members[k].value)
  {
    var r := FirstWith(members, names);
    var i :| 0 <= i < |members| && members[i].key in names && r.value == members[i].value;
    assert i == k;
  }

  /** With at most one spelling of a field in the object, both platforms read the same value. */
  lemma PickAgreement(members: seq<Member>, name: string, alt: string)
    requires name != alt
    requires SingleSpelling(members, name, alt)
    ensures Pick(Android, members, name, alt) == Pick(Ios, members, name, alt)
  {
    if k :| 0 <= k < |members| && members[k].key in {name, alt} {
      assert forall j :: 0 <= j < |members| && j != k ==> members[j].key != name && members[j].key != alt;
      LastWithSingle(members, {name, alt}, k);
      if members[k].key == name {
        FirstWithSingle(members, {name}, k);
        assert FirstWith(members, {alt}).None?;
      } else {
        FirstWithSingle(members, {alt}, k);
        assert FirstWith(members, {name}).None?;
      }
    } else {
      assert LastWith(members, {name, alt}).None?;
      assert FirstWith(members, {name}).None? && FirstWith(members, {alt}).None?;
    }
  }

  /** A value Swift's decoder takes for a string field: no number or boolean that Gson would
      silently turn into text. */
  predicate PlainString(v: Json) {
    !v.JNumber? && !v.JBool?
  }

  /** A value a 32-bit Kotlin `Int` can take whenever a 64-bit Swift `Int` can. */
  predicate Int32Number(v: Json) {
    v.JNumber? ==> FitsInt(Android, v.n)
  }

  /** Every member spelling the field holds a value satisfying `ok`. */
  predicate AllSpelled(members: seq<Member>, name: string, alt: string, ok: Json -> bool) {
    forall m :: m in members && (m.key == name || m.key == alt) ==> ok(m.value)
  }

  predicate CanonicalTeam(j: Json) {
    j.JObject? ==>
      && SingleSpelling(j.members, "teamName", "TeamName")
      && AllSpelled(j.members, "teamName", "TeamName", PlainString)
  }

  predicate CanonicalResult(j: Json) {
    j.JObject? ==>
      && SingleSpelling(j.members, "resultTypeID", "ResultTypeID")
      && SingleSpelling(j.members, "pointsTeam1", "PointsTeam1")
      && SingleSpelling(j.members, "pointsTeam2", "PointsTeam2")
      && AllSpelled(j.members, "resultTypeID", "ResultTypeID", Int32Number)
      && AllSpelled(j.members, "pointsTeam1", "PointsTeam1", Int32Number)
      && AllSpelled(j.members, "pointsTeam2", "PointsTeam2", Int32Number)
  }

  /** A match object in which every field, nested ones included, is spelled at most once, no
      string field holds a number or a boolean, and every integer fits in 32 bits. */
  predicate CanonicalMatch(j: Json) {
    j.JObject? ==>
      && SingleSpelling(j.members, UtcNames.0, UtcNames.1)
      && SingleSpelling(j.members, LocalNames.0, LocalNames.1)
      && SingleSpelling(j.members, Team1Names.0, Team1Names.1)
      && SingleSpelling(j.members, Team2Names.0, Team2Names.1)
      && SingleSpelling(j.members, ResultsNames.0, ResultsNames.1)
      && AllSpelled(j.members, UtcNames.0, UtcNames.1, PlainString)
      && AllSpelled(j.members, LocalNames.0, LocalNames.1, PlainString)
      && (forall m :: m in j.members && m.key in {"team1", "Team1", "team2", "Team2"} ==> CanonicalTeam(m.value))
      && (forall m :: m in j.members && m.key in {"matchResults", "MatchResults"} && m.value.JArray?
            ==> forall x :: x in m.value.items ==> CanonicalResult(x))
  }

  /** Both decoders of a string field agree on a value that is not a number or a boolean. */
  lemma StringAgreement(members: seq<Member>, name: string, alt: string)
    requires AllSpelled(members, name, alt, PlainString)
    ensures forall m :: m in members && (m.key == name || m.key == alt) ==>
      StringDecoder(Android)(m.value) == StringDecoder(Ios)(m.value)
  {
  }

  /** Both decoders of an integer field agree on a value within 32 bits. */
  lemma IntAgreement(members: seq<Member>, name: string, alt: string)
    requires AllSpelled(members, name, alt, Int32Number)
    ensures forall m :: m in members && (m.key == name || m.key == alt) ==>
      IntDecoder(Android)(m.value) == IntDecoder(Ios)(m.value)
  {
  }

  lemma TeamAgreement(j: Json)
    requires CanonicalTeam(j)
    ensures DecodeTeam(Android, j) == DecodeTeam(Ios, j)
  {
    if j.JObject? {
      StringAgreement(j.members, "teamName", "TeamName");
      FieldAgreement(j.members, "teamName", "TeamName", StringDecoder(Android), StringDecoder(Ios));
    }
  }

  lemma ResultAgreement(j: Json)
    requires CanonicalResult(j)
    ensures DecodeResult(Android, j) == DecodeResult(Ios, j)
  {
    if j.JObject? {
      IntAgreement(j.members, "resultTypeID", "ResultTypeID");
      IntAgreement(j.members, "pointsTeam1", "PointsTeam1");
      IntAgreement(j.members, "pointsTeam2", "PointsTeam2");
      FieldAgreement(j.members, "resultTypeID", "ResultTypeID", IntDecoder(Android), IntDecoder(Ios));
      FieldAgreement(j.members, "pointsTeam1", "PointsTeam1", IntDecoder(Android), IntDecoder(Ios));
      FieldAgreement(j.members, "pointsTeam2", "PointsTeam2", IntDecoder(Android), IntDecoder(Ios));
    }
  }

  lemma EachAgreement(items: seq<Json>)
    requires forall x :: x in items ==> CanonicalResult(x)
    ensures MapResult(items, ResultDecoder(Android)) == MapResult(items, ResultDecoder(Ios))
  {
    forall i | 0 <= i < |items|
      ensures DecodeResult(Android, items[i]) == DecodeResult(Ios, items[i])
    {
      ResultAgreement(items[i]);
    }
    MapResultCongruent(items, ResultDecoder(Android), ResultDecoder(Ios));
  }

  /** A field spelled at most once, by a member both decoders read alike, decodes alike: Gson's
      check of every spelling and Swift's fallback see the same single member. */
  lemma FieldAgreement<T>(members: seq<Member>, name: string, alt: string, decodeA: Json -> Result<T>, decodeI: Json -> Result<T>)
    requires name != alt && SingleSpelling(members, name, alt)
    requires forall m :: m in members && (m.key == name || m.key == alt) ==> decodeA(m.value) == decodeI(m.value)
    ensures Field(Android, members, name, alt, decodeA) == Field(Ios, members, name, alt, decodeI)
  {
    hide FirstWith;
    PickAgreement(members, name, alt);
    var pick := Pick(Android, members, name, alt);
    match FirstIndex(members, Breaks(name, alt, decodeA))
    case Some(i) =>
      assert members[i] in members;
      assert forall j :: 0 <= j < |members| && j != i ==> members[j].key !in {name, alt};
      LastWithSingle(members, {name, alt}, i);
      assert pick == Some(members[i].value);
    case None =>
      if pick.Some? {
        var k :| 0 <= k < |members| && (members[k].key == name || members[k].key == alt) && members[k].value == pick.value;
        assert members[k] in members;
      }
  }

  /** Cross-platform decoding: for a match object that spells each field at most once, Gson's
      last-wins rule and the iOS key fallback decode the same record. */
  lemma MatchAgreement(j: Json)
    requires CanonicalMatch(j)
    ensures DecodeMatch(Android, j) == DecodeMatch(Ios, j)
  {
    if j.JObject? {
      var ms := j.members;
      StringAgreement(ms, UtcNames.0, UtcNames.1);
      StringAgreement(ms, LocalNames.0, LocalNames.1);
      FieldAgreement(ms, UtcNames.0, UtcNames.1, StringDecoder(Android), StringDecoder(Ios));
      FieldAgreement(ms, LocalNames.0, LocalNames.1, StringDecoder(Android), StringDecoder(Ios));
      forall m | m in ms && (m.key == Team1Names.0 || m.key == Team1Names.1 || m.key == Team2Names.0 || m.key == Team2Names.1)
        ensures DecodeTeam(Android, m.value) == DecodeTeam(Ios, m.value)
      {
        TeamAgreement(m.value);
      }
      FieldAgreement(ms, Team1Names.0, Team1Names.1, TeamDecoder(Android), TeamDecoder(Ios));
      FieldAgreement(ms, Team2Names.0, Team2Names.1, TeamDecoder(Android), TeamDecoder(Ios));
      forall m | m in ms && (m.key == ResultsNames.0 || m.key == ResultsNames.1)
        ensures DecodeResults(Android, m.value) == DecodeResults(Ios, m.value)
      {
        if m.value.JArray? {
          EachAgreement(m.value.items);
        }
      }
      FieldAgreement(ms, ResultsNames.0, ResultsNames.1, ResultsDecoder(Android), ResultsDecoder(Ios));
    }
  }

  /** The decoder of one match object. */
  function MatchDecoder(p: Platform): Json -> Result<OpenLigaMatch> {
    (j: Json) => DecodeMatch(p, j)
  }

  /** The whole payload: a JSON array of match objects, each of which must decode. */
  function DecodeMatches(p: Platform, j: Json): (r: Result<seq<OpenLigaMatch>>)
    ensures r.Ok? ==> j.JArray? && |r.value| == |j.items|
    ensures r.Ok? ==> forall i :: 0 <= i < |j.items| ==> DecodeMatch(p, j.items[i]) == Ok(r.value[i])
    ensures j.JArray? ==> (r.Ok? <==> forall i :: 0 <= i < |j.items| ==> DecodeMatch(p, j.items[i]).Ok?)
  {
    if j.JArray? then MapResult(j.items, MatchDecoder(p)) else Err("expected an array of matches")
  }

  /** A null entry in the matches array fails the whole decoding on both platforms. This is
      what Swift's decoder does; Gson instead keeps the entry as a null match, which the
      Android app dereferences later (see README, "Left out"). */
  lemma NullMatchFailsLoad(p: Platform, items: seq<Json>, k: nat)
    requires k < |items| && items[k] == JNull
    ensures DecodeMatches(p, JArray(items)).Err?
  {
  }

  /** The time-zone database and timestamp grammars the apps delegate to their platform
      libraries, kept opaque: parsing an ISO-8601 string with an offset into an instant (epoch
      seconds), parsing an offset-less `yyyy-MM-dd'T'HH:mm:ss` string, resolving a Berlin
      wall-clock time to an instant, and reading an instant on the Berlin wall clock. */
  datatype TimeEnv = TimeEnv(
    parseZoned: string -> Option<int>,
    parseLocal: string -> Option<LocalDateTime>,
    atBerlin: LocalDateTime -> int,
    inBerlin: int -> LocalDateTime)

  /** `localKickoff()` on Android and `kickoffDate()` on iOS, as an instant. */
  function Kickoff(env: TimeEnv, m: OpenLigaMatch): (r: Option<int>)
    ensures m.matchDateTimeUtc.Some? && env.parseZoned(m.matchDateTimeUtc.value).Some?
      ==> r == env.parseZoned(m.matchDateTimeUtc.value)
    ensures (m.matchDateTimeUtc.None? || env.parseZoned(m.matchDateTimeUtc.value).None?)
      ==> r == (if m.matchDateTime.Some? && env.parseLocal(m.matchDateTime.value).Some?
               then Some(env.atBerlin(env.parseLocal(m.matchDateTime.value).value)) else None)
  {
    var utc := if m.matchDateTimeUtc.Some? then env.parseZoned(m.matchDateTimeUtc.value) else None;
    if utc.Some? then utc
    else if m.matchDateTime.None? then None
    else
      match env.parseLocal(m.matchDateTime.value)
      case None => None
      case Some(local) => Some(env.atBerlin(local))
  }

  /** A parseable UTC string decides the kickoff whatever the local string holds. */
  lemma UtcWins(env: TimeEnv, m: OpenLigaMatch, other: Option<string>)
    requires m.matchDateTimeUtc.Some? && env.parseZoned(m.matchDateTimeUtc.value).Some?
    ensures Kickoff(env, m.(matchDateTime := other)) == Kickoff(env, m)
  {
  }

  /** There is no kickoff exactly when neither string parses. */
  lemma NoKickoff(env: TimeEnv, m: OpenLigaMatch)
    ensures Kickoff(env, m).None? <==>
      (m.matchDateTimeUtc.None? || env.parseZoned(m.matchDateTimeUtc.value).None?)
      && (m.matchDateTime.None? || env.parseLocal(m.matchDateTime.value).None?)
  {
  }

  /** The kickoff read on the Berlin wall clock (the `ZonedDateTime` in Europe/Berlin). */
  function BerlinKickoff(env: TimeEnv, m: OpenLigaMatch): (r: Option<LocalDateTime>)
    ensures r.Some? <==> Kickoff(env, m).Some?
    ensures r.Some? ==> r.value == env.inBerlin(Kickoff(env, m).value)
  {
    match Kickoff(env, m)
    case None => None
    case Some(i) => Some(env.inBerlin(i))
  }

  const UnknownTeam := "Unbekannt"

  /** `team?.teamName ?: fallback` (Kotlin) and `team?.teamName ?? fallback` (Swift). */
  function NameOr(team: Option<TeamRef>, fallback: string): (name: string)
    ensures team.Some? && team.value.teamName.Some? ==> name == team.value.teamName.value
    ensures team.None? || team.value.teamName.None? ==> name == fallback
  {
    match team
    case Some(TeamRef(Some(n))) => n
    case _ => fallback
  }

  /** The displayed team name, "Unbekannt" when the team or its name is missing. */
  function TeamName(team: Option<TeamRef>): string {
    NameOr(team, UnknownTeam)
  }
}
