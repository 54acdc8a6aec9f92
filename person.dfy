/** One individual of the family. A Person's identity is its integer uid:
    two Persons with the same uid are the same individual whatever their
    other fields say, which is why the rest of the model refers to people
    by uid. */
module Persons {
  import opened Outcomes
  import opened Text

  /** The closed set of genders. The source spells them two ways: `add_child`
      tests for "m" and "f" (and the example data uses those), while
      `add_father` and `add_mother` test for "male" and "female". Both
      spellings map to the same value here; a Person also keeps the string
      it was given, so that the checks can be modelled as written. */
  datatype Gender = Male | Female | Unknown

  function ParseGender(token: string): (g: Gender)
    ensures g == Male <==> token == "m" || token == "male"
    ensures g == Female <==> token == "f" || token == "female"
  {
    if token == "m" || token == "male" then Male
    else if token == "f" || token == "female" then Female
    else Unknown
  }

  /** The constructor refuses an empty list of given names, so every Person has one. */
  type GivenNames = s: seq<string> | |s| >= 1 witness ["???"]

  datatype Person = Person(
    uid: int,
    surname: string,
    givenNames: GivenNames,
    gender: Gender,
    genderText: string,
    nickname: Option<string>,
    notes: seq<string>)

  /** `Person(uid, surname=..., given_names=..., gender=..., nickname=..., notes=...)`:
      missing given names become ["???"], missing notes become [], and an
      empty list of given names raises TypeError. */
  function NewPerson(uid: int, surname: string, givenNames: Option<seq<string>>, gender: string,
                     nickname: Option<string>, notes: Option<seq<string>>): (r: Result<Person>)
    ensures r.Ok? <==> givenNames.None? || |givenNames.value| >= 1
    ensures r.Err? ==> r.error == TypeError
    ensures r.Ok? ==> r.value.uid == uid && r.value.surname == surname && r.value.nickname == nickname
    ensures r.Ok? ==> r.value.gender == ParseGender(gender) && r.value.genderText == gender
    ensures r.Ok? && givenNames.None? ==> r.value.givenNames == ["???"]
    ensures r.Ok? && givenNames.Some? ==> r.value.givenNames == givenNames.value
    ensures r.Ok? ==> r.value.notes == (if notes.Some? then notes.value else [])
  {
    var given := if givenNames.Some? then givenNames.value else ["???"];
    if |given| < 1 then Err(TypeError)
    else Ok(Person(uid, surname, given, ParseGender(gender), gender, nickname,
                   if notes.Some? then notes.value else []))
  }

  /** One record of the `people` list, each field present or absent. */
  datatype PersonRecord = PersonRecord(
    uid: Option<int>,
    surname: Option<string>,
    givenNames: Option<seq<string>>,
    gender: Option<string>,
    nickname: Option<string>,
    notes: Option<seq<string>>)

  /** `Person.from_dict(record)`: the constructor called with the fields the
      record has; a record without a uid raises KeyError. */
  function FromDict(rec: PersonRecord): (r: Result<Person>)
    ensures rec.uid.None? ==> r == Err(KeyError)
    ensures rec.uid.Some? ==> (r.Ok? <==> rec.givenNames.None? || |rec.givenNames.value| >= 1)
    ensures r.Ok? ==> r.value.uid == rec.uid.value
    ensures r.Ok? ==> r.value.surname == (if rec.surname.Some? then rec.surname.value else "")
    ensures r.Ok? ==> r.value.gender == (if rec.gender.Some? then ParseGender(rec.gender.value) else Unknown)
    ensures r.Ok? ==> r.value.genderText == (if rec.gender.Some? then rec.gender.value else "?")
  {
    if rec.uid.None? then Err(KeyError)
    else NewPerson(rec.uid.value,
                   if rec.surname.Some? then rec.surname.value else "",
                   rec.givenNames,
                   if rec.gender.Some? then rec.gender.value else "?",
                   rec.nickname,
                   rec.notes)
  }

  /** `__eq__`: Persons are the same individual exactly when their uids agree. */
  predicate SamePerson(p: Person, q: Person)
  {
    p.uid == q.uid
  }

  /** `__hash__`: the uid itself. */
  function Hash(p: Person): int
  {
    p.uid
  }

  /** Two Persons that differ in every field but the uid compare equal and
      hash alike, so a set or dictionary cannot tell them apart. */
  lemma SameUidSamePerson(p: Person, q: Person)
    requires p.uid == q.uid
    ensures SamePerson(p, q) && Hash(p) == Hash(q)
  {
  }

  /** `__str__`: the given names joined by spaces, one more space, then the
      surname (the space is there even when the surname is empty). */
  function Str(p: Person): (r: string)
    ensures var k := |Join(p.givenNames)|;
      && |r| == k + 1 + |p.surname|
      && r[..k] == Join(p.givenNames) && r[k] == ' ' && r[k + 1..] == p.surname
  {
    Join(p.givenNames) + " " + p.surname
  }

  /** `__str__` always holds a space right after the given names. */
  lemma StrHasSpace(p: Person)
    ensures |Join(p.givenNames)| < |Str(p)| && Str(p)[|Join(p.givenNames)|] == ' '
    ensures !AllQuestionMarks(Str(p))
  {
  }

  /** The name a person goes by: `__str__` without the trailing separator
      that an empty surname leaves behind. A placeholder named "??" with no
      surname is called "??". */
  function Name(p: Person): (r: string)
    ensures p.surname != "" ==> r == Str(p)
    ensures p.surname == "" && |p.givenNames| == 1 ==> r == p.givenNames[0]
  {
    if p.surname == "" then Join(p.givenNames) else Str(p)
  }

  /** `first_name`: the first given name, which is where `__str__` starts. */
  function FirstName(p: Person): (r: string)
    ensures r in p.givenNames
    ensures r <= Join(p.givenNames) && r <= Str(p)
  {
    JoinStartsWithFirst(p.givenNames);
    p.givenNames[0]
  }

  const FullNameStyle := "full name"
  const LastInitialStyle := "last initial"
  const LastInitialNoMiddleStyle := "last initial, no middle names"
  const NoMiddleStyle := "no middle names"

  /** The four styles `display_string` accepts. */
  predicate KnownStyle(style: string)
  {
    style == FullNameStyle || style == LastInitialStyle
    || style == LastInitialNoMiddleStyle || style == NoMiddleStyle
  }

  /** The two styles that abbreviate the surname to its first letter. */
  predicate InitialStyle(style: string)
  {
    style == LastInitialStyle || style == LastInitialNoMiddleStyle
  }

  /** What `with_uid=True` appends. */
  function UidSuffix(uid: int): string
  {
    " (" + IntToString(uid) + ")"
  }

  /** `display_string(style, with_uid)`. An unknown style raises ValueError;
      the two initial styles read `surname[0]`, which raises IndexError on an
      empty surname. */
  function DisplayString(p: Person, style: string, withUid: bool): (r: Result<string>)
    ensures r.Ok? <==> KnownStyle(style) && (InitialStyle(style) ==> p.surname != "")
    ensures r.Err? ==> r.error == (if KnownStyle(style) then IndexError else ValueError)
    ensures r.Ok? ==> FirstName(p) <= r.value
    ensures r.Ok? && withUid ==>
      |UidSuffix(p.uid)| <= |r.value| && r.value[|r.value| - |UidSuffix(p.uid)|..] == UidSuffix(p.uid)
  {
    var base :=
      if style == FullNameStyle then Ok(Join(p.givenNames) + " " + p.surname)
      else if style == LastInitialStyle then
        (if p.surname == "" then Err(IndexError) else Ok(Join(p.givenNames) + " " + [p.surname[0]] + "."))
      else if style == LastInitialNoMiddleStyle then
        (if p.surname == "" then Err(IndexError) else Ok(p.givenNames[0] + " " + [p.surname[0]] + "."))
      else if style == NoMiddleStyle then Ok(p.givenNames[0] + " " + p.surname)
      else Err(ValueError);
    JoinStartsWithFirst(p.givenNames);
    if base.Ok? && withUid then Ok(base.value + UidSuffix(p.uid)) else base
  }

  /** The "full name" style is `__str__`. */
  lemma FullNameIsStr(p: Person)
    ensures DisplayString(p, FullNameStyle, false) == Ok(Str(p))
  {
  }

  /** `with_uid=True` appends " (uid)" to the `with_uid=False` result, in every style. */
  lemma WithUidAppendsUid(p: Person, style: string)
    ensures DisplayString(p, style, true).Ok? <==> DisplayString(p, style, false).Ok?
    ensures DisplayString(p, style, false).Ok? ==>
      DisplayString(p, style, true).value == DisplayString(p, style, false).value + UidSuffix(p.uid)
  {
  }
}
