/** The mock travel API of `python_backend/main.py`: city suggestions,
    destination search, hotel and bus lookups by city, the echoing `book`
    endpoint, and registration and login over a user table. The static data
    tables (the city list, destinations, hotels, buses) are parameters;
    password hashing and verification are given functions. */
module MockApi {
  import opened Common
  import opened Text
  import opened Seqs

  // ---------------------------------------------------------------------------
  // suggest_cities

  /** At most this many suggestions are returned. */
  const SuggestionLimit: nat := 8

  /** The query as `suggest_cities` compares it: stripped, then lower-cased. */
  function NormalQuery(query: string): (q: string)
    ensures q == [] || (!IsSpace(q[0]) && !IsSpace(q[|q| - 1]))
    ensures forall i :: 0 <= i < |q| ==> !IsUpper(q[i])
  {
    Lower(Strip(query))
  }

  /** The cities whose lower-case name contains `q`, in list order. */
  function Matching(cities: seq<string>, q: string): (m: seq<string>)
    ensures forall c :: c in m <==> c in cities && Contains(Lower(c), q)
    ensures forall c {:trigger multiset(m)[c]} :: multiset(m)[c] == if Contains(Lower(c), q) then multiset(cities)[c] else 0
    ensures IsSubsequence(m, cities)
  {
    FilterIsSubsequence(cities, c => Contains(Lower(c), q));
    Filter(cities, c => Contains(Lower(c), q))
  }

  /** `suggest_cities`: nothing for a blank query, otherwise the first eight
      matching cities in list order. */
  function SuggestCities(cities: seq<string>, query: string): (r: seq<string>)
    ensures |r| <= SuggestionLimit
    ensures AllSpace(query) <==> NormalQuery(query) == []
    ensures AllSpace(query) ==> r == []
    ensures !AllSpace(query) ==> FirstOf(r, Matching(cities, NormalQuery(query)), SuggestionLimit)
    ensures forall c :: c in r ==> c in cities && Contains(Lower(c), NormalQuery(query))
  {
    NormalQueryBlankIffAllSpace(query);
    var q := NormalQuery(query);
    if q == [] then []
    else
      var m := Matching(cities, q);
      var r := Take(m, SuggestionLimit);
      FirstOfMembers(r, m, SuggestionLimit);
      r
  }

  lemma NormalQueryBlankIffAllSpace(query: string)
    ensures AllSpace(query) <==> NormalQuery(query) == []
  {
    StripEmptyIffAllSpace(query);
    assert |NormalQuery(query)| == |Strip(query)|;
  }

  /** Suggestions keep the order of the city list. */
  lemma SuggestionsInListOrder(cities: seq<string>, query: string)
    ensures IsSubsequence(SuggestCities(cities, query), cities)
  {
    var q := NormalQuery(query);
    if q != [] {
      var m := Matching(cities, q);
      PrefixOfSubsequence(m, cities, |SuggestCities(cities, query)|);
    }
  }

  /** When there are no more than eight matches, every match is suggested. */
  lemma SuggestionsCompleteUnderLimit(cities: seq<string>, query: string, city: string)
    requires !AllSpace(query)
    requires |Matching(cities, NormalQuery(query))| <= SuggestionLimit
    requires city in cities && Contains(Lower(city), NormalQuery(query))
    ensures city in SuggestCities(cities, query)
  {
    var m := Matching(cities, NormalQuery(query));
    var r := SuggestCities(cities, query);
    assert FirstOf(r, m, SuggestionLimit);
    assert |r| == |m|;
    assert r == m[..|m|] == m;
    assert city in m;
  }

  /** Whitespace around the query never changes the suggestions. */
  lemma SuggestIgnoresQueryPadding(cities: seq<string>, w1: string, query: string, w2: string)
    requires AllSpace(w1) && AllSpace(w2)
    ensures SuggestCities(cities, w1 + query + w2) == SuggestCities(cities, query)
  {
    StripIgnoresSurroundingSpace(w1, query, w2);
  }

  /** Neither does the case of its letters. */
  lemma SuggestIgnoresQueryCase(cities: seq<string>, query: string, other: string)
    requires Lower(query) == Lower(other)
    ensures SuggestCities(cities, query) == SuggestCities(cities, other)
  {
    StripIgnoresCase(query, other);
  }

  // ---------------------------------------------------------------------------
  // search

  /** An entry of the destination table. */
  datatype Destination = Destination(city: string, price: int, image: string)

  /** `search`: every destination for an empty `to_city`, otherwise those
      whose city contains it, ignoring case. `from_city` is only logged. */
  function Search(destinations: seq<Destination>, fromCity: string, toCity: string): (r: seq<Destination>)
    ensures toCity == "" ==> r == destinations
    ensures toCity != "" ==> forall d :: d in r <==> d in destinations && Contains(Lower(d.city), Lower(toCity))
    ensures toCity != "" ==> forall d {:trigger multiset(r)[d]} ::
      multiset(r)[d] == if Contains(Lower(d.city), Lower(toCity)) then multiset(destinations)[d] else 0
    ensures IsSubsequence(r, destinations)
  {
    if toCity == "" then
      FilterKeepAll(destinations, (d: Destination) => true);
      FilterIsSubsequence(destinations, (d: Destination) => true);
      destinations
    else
      FilterIsSubsequence(destinations, (d: Destination) => Contains(Lower(d.city), Lower(toCity)));
      Filter(destinations, (d: Destination) => Contains(Lower(d.city), Lower(toCity)))
  }

  /** Unlike the suggestions, search does not strip `to_city`: a leading
      space makes "Goa" unreachable even though "goa" finds it. */
  lemma SearchDoesNotStrip()
    ensures
      var goa := Destination("Goa", 4500, "");
      Search([goa], "", "goa") == [goa] && Search([goa], "", " goa") == []
  {
    var goa := Destination("Goa", 4500, "");
    assert Lower("Goa") == "goa" && Lower("goa") == "goa";
    assert OccursAt(Lower("Goa"), Lower("goa"), 0);
    assert !Contains(Lower("Goa"), Lower(" goa")) by {
      assert |Lower(" goa")| > |Lower("Goa")|;
    }
    assert [goa][1..] == [];
  }

  // ---------------------------------------------------------------------------
  // get_hotels, get_buses

  datatype Hotel = Hotel(name: string, price: int, image: string)
  datatype Bus = Bus(operator: string, departure: string, arrival: string, price: int, image: string)

  /** The key a city is looked up under: stripped, then title-cased. */
  function CityKey(city: string): (key: string)
    ensures key == [] || (!IsSpace(key[0]) && !IsSpace(key[|key| - 1]))
    ensures key == [] || !IsCased(key[0]) || IsUpper(key[0])
  {
    var t := Strip(city);
    TitleKeepsEnds(t);
    Title(t)
  }

  /** Title-casing a string that neither starts nor ends with whitespace
      gives one that does not either, and starts with a capital if it starts
      with a letter. */
  lemma TitleKeepsEnds(t: string)
    requires t == [] || (!IsSpace(t[0]) && !IsSpace(t[|t| - 1]))
    ensures var k := Title(t);
      k == [] || (!IsSpace(k[0]) && !IsSpace(k[|k| - 1]) && (!IsCased(k[0]) || IsUpper(k[0])))
  {
    var k := Title(t);
    if k != [] {
      var n := |k| - 1;
      assert IsCased(k[0]) == IsCased(t[0]) && (!IsCased(t[0]) ==> k[0] == t[0]);
      assert IsCased(k[n]) == IsCased(t[n]) && (!IsCased(t[n]) ==> k[n] == t[n]);
    }
  }

  /** `dict.get(CityKey(city), [])`: the entry filed under the normalised
      city, or nothing when there is none. */
  function CityLookup<T>(table: map<string, seq<T>>, city: string): (r: seq<T>)
    ensures CityKey(city) in table ==> r == table[CityKey(city)]
    ensures CityKey(city) !in table ==> r == []
  {
    var key := CityKey(city);
    if key in table then table[key] else []
  }

  /** `get_hotels`: the hotels filed under the normalised city. */
  function GetHotels(hotels: map<string, seq<Hotel>>, city: string): (r: seq<Hotel>)
    ensures CityKey(city) in hotels ==> r == hotels[CityKey(city)]
    ensures CityKey(city) !in hotels ==> r == []
  {
    CityLookup(hotels, city)
  }

  /** `get_buses`: the buses filed under the normalised city. */
  function GetBuses(buses: map<string, seq<Bus>>, city: string): (r: seq<Bus>)
    ensures CityKey(city) in buses ==> r == buses[CityKey(city)]
    ensures CityKey(city) !in buses ==> r == []
  {
    CityLookup(buses, city)
  }

  /** Surrounding whitespace in the city does not change a lookup. */
  lemma LookupIgnoresPadding<T>(table: map<string, seq<T>>, w1: string, city: string, w2: string)
    requires AllSpace(w1) && AllSpace(w2)
    ensures CityLookup(table, w1 + city + w2) == CityLookup(table, city)
  {
    StripIgnoresSurroundingSpace(w1, city, w2);
  }

  /** Nor does the case of its letters. */
  lemma LookupIgnoresCase<T>(table: map<string, seq<T>>, city: string, other: string)
    requires Lower(city) == Lower(other)
    ensures CityLookup(table, city) == CityLookup(table, other)
  {
    StripIgnoresCase(city, other);
    TitleIgnoresCase(Strip(city), Strip(other));
  }

  /** Hotel and bus lookups share the normalisation: both are insensitive to
      padding and case. */
  lemma HotelsAndBusesNormaliseAlike(hotels: map<string, seq<Hotel>>, buses: map<string, seq<Bus>>,
                                     w1: string, city: string, other: string, w2: string)
    requires AllSpace(w1) && AllSpace(w2) && Lower(city) == Lower(other)
    ensures GetHotels(hotels, w1 + city + w2) == GetHotels(hotels, other)
    ensures GetBuses(buses, w1 + city + w2) == GetBuses(buses, other)
  {
    LookupIgnoresPadding(hotels, w1, city, w2);
    LookupIgnoresCase(hotels, city, other);
    LookupIgnoresPadding(buses, w1, city, w2);
    LookupIgnoresCase(buses, city, other);
  }

  /** "  gOA " is looked up under "Goa". */
  lemma PaddedMixedCaseCityFindsKey(city: string)
    requires city == "  gOA "
    ensures CityKey(city) == "Goa"
  {
    var w1, core, w2 := [' ', ' '], ['g', 'O', 'A'], [' '];
    SplitPadded(city, w1, core, w2);
    StripIgnoresSurroundingSpace(w1, core, w2);
    CoreIsStripped(core);
    TitleOfMixedCase(core);
  }

  lemma SplitPadded(city: string, w1: string, core: string, w2: string)
    requires city == "  gOA " && w1 == [' ', ' '] && core == ['g', 'O', 'A'] && w2 == [' ']
    ensures city == w1 + core + w2 && AllSpace(w1) && AllSpace(w2)
  {
  }

  lemma CoreIsStripped(core: string)
    requires core == ['g', 'O', 'A']
    ensures Strip(core) == core
  {
    assert TrimLeft(core) == core;
  }

  lemma TitleOfMixedCase(core: string)
    requires core == ['g', 'O', 'A']
    ensures Title(core) == "Goa"
  {
    assert core[1..] == "OA" && "OA"[1..] == "A" && "A"[1..] == [];
    assert TitleAfter("A", true) == "a";
    assert TitleAfter("OA", true) == "oa";
    assert UpperChar('g') == 'G';
  }

  // ---------------------------------------------------------------------------
  // book

  datatype TripBooking = TripBooking(destination: string, price: int)
  datatype BookReply = BookReply(message: string, booking: TripBooking)
  /** The confirmation email queued as a background task. */
  datatype EmailTask = EmailTask(to: string, booking: TripBooking)

  /** `book`: the reply echoes the destination and price, and the queued
      email carries the same booking to the given address. */
  function Book(email: string, destination: string, price: int): (out: (BookReply, EmailTask))
    ensures out.0.booking.destination == destination && out.0.booking.price == price
    ensures out.1.to == email && out.1.booking == out.0.booking
    ensures out.0.message == "Booking successful! Confirmation email sent."
  {
    var booking := TripBooking(destination, price);
    (BookReply("Booking successful! Confirmation email sent.", booking), EmailTask(email, booking))
  }

  // ---------------------------------------------------------------------------
  // register, login

  datatype User = User(
    email: string,
    firstName: string,
    lastName: string,
    hashedPassword: string,
    isActive: bool,
    isAdmin: bool)

  datatype RegisterReply = RegisterReply(message: string, firstName: string)
  datatype LoginReply = LoginReply(message: string, firstName: string, email: string)

  const EmailTaken: HttpResult<RegisterReply> := HttpError(400, "Email already registered.")
  const BadCredentials: HttpResult<LoginReply> := HttpError(401, "Invalid email or password.")

  /** The user table, looked up by email: each user is filed under its own email. */
  predicate KeyedByEmail(users: map<string, User>) {
    forall e :: e in users ==> users[e].email == e
  }

  /** A freshly registered user: active, not an administrator. */
  function NewUser(email: string, password: string, firstName: string, lastName: string,
                   hash: string -> string): (u: User)
    ensures u.email == email && u.isActive && !u.isAdmin
  {
    User(email, firstName, lastName, hash(password), true, false)
  }

  /** `login`: succeeds exactly when a user has that email and `verify`
      accepts the password against the stored hash; otherwise 401. */
  function Login(users: map<string, User>, email: string, password: string,
                 verify: (string, string) -> bool): (r: HttpResult<LoginReply>)
    ensures r.Ok? <==> email in users && verify(password, users[email].hashedPassword)
    ensures r.Ok? ==> r.value == LoginReply("Login successful!", users[email].firstName, users[email].email)
    ensures !r.Ok? ==> r == BadCredentials
  {
    if email !in users || !verify(password, users[email].hashedPassword) then BadCredentials
    else
      var u := users[email];
      Ok(LoginReply("Login successful!", u.firstName, u.email))
  }

  /** After registering, the same email and password log in, provided the
      verifier accepts a password against its own hash. */
  lemma LoginAfterRegister(users: map<string, User>, email: string, password: string,
                           firstName: string, lastName: string,
                           hash: string -> string, verify: (string, string) -> bool)
    requires email !in users
    requires verify(password, hash(password))
    ensures Login(users[email := NewUser(email, password, firstName, lastName, hash)], email, password, verify)
      == Ok(LoginReply("Login successful!", firstName, email))
  {
  }

  /** Registering one email never changes whether another can log in. */
  lemma RegisterKeepsOtherLogins(users: map<string, User>, email: string, password: string,
                                 firstName: string, lastName: string, hash: string -> string,
                                 other: string, otherPassword: string, verify: (string, string) -> bool)
    requires other != email
    ensures Login(users[email := NewUser(email, password, firstName, lastName, hash)], other, otherPassword, verify)
      == Login(users, other, otherPassword, verify)
  {
  }

  /** The `users` table that `register` inserts into. */
  class UserStore {
    var users: map<string, User>

    ghost predicate Valid()
      reads this
    {
      KeyedByEmail(users)
    }

    constructor (users: map<string, User>)
      requires KeyedByEmail(users)
      ensures Valid() && this.users == users
    {
      this.users := users;
    }

    /** `register`: a taken email is refused with 400 and nothing changes;
        otherwise exactly one user is added under that email. */
    method Register(email: string, password: string, firstName: string, lastName: string,
                    hash: string -> string) returns (r: HttpResult<RegisterReply>)
      requires Valid()
      modifies this
      ensures Valid()
      ensures email in old(users) ==> r == EmailTaken && users == old(users)
      ensures email !in old(users) ==>
        && users == old(users)[email := NewUser(email, password, firstName, lastName, hash)]
        && r == Ok(RegisterReply("Registration successful!", firstName))
    {
      if email in users {
        r := EmailTaken;
        return;
      }
      var user := NewUser(email, password, firstName, lastName, hash);
      users := users[email := user];
      r := Ok(RegisterReply("Registration successful!", user.firstName));
    }
  }

  /** Registering the same email twice: the second attempt is refused and
      the table keeps the first registration. */
  method RegisterTwice(store: UserStore, email: string, password: string, otherPassword: string,
                       hash: string -> string) returns (first: HttpResult<RegisterReply>, second: HttpResult<RegisterReply>)
    requires store.Valid() && email !in store.users
    modifies store
    ensures first.Ok? && second == EmailTaken
    ensures store.users == old(store.users)[email := NewUser(email, password, "A", "B", hash)]
  {
    first := store.Register(email, password, "A", "B", hash);
    second := store.Register(email, otherPassword, "C", "D", hash);
  }
}
