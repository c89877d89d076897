/**
 * The user-country context (src/contexts/ValidCountryUser.tsx): once, on mount, it asks the
 * backend which countries may write to and read the forum, and sets the user's write and
 * read flags from the answer when the current country is listed.
 */
module ValidCountryUser {
  import opened Wrappers

  /** The fields of the `/api/check-user` body that are read. `forumCountries` and
      `readAccess` are `forum_countries` and `forum_country_readAccess`, `None` when the
      field is missing. */
  datatype UserData = UserData(
    forumCountries: Option<seq<string>>,
    readAccess: Option<seq<string>>,
    isValidUser: bool,
    isAuthUser: bool)

  /** How `fetch("/api/check-user")` ends: a non-ok status, a thrown error with its
      `message` (a rejected request, such as a network `TypeError`, or a body that is not
      JSON), or a body (`None` for the JSON `null`). */
  datatype Response = NotOk | Threw(message: string) | Json(data: Option<UserData>)

  /** The context value. */
  datatype UserState = UserState(isValidUser: bool, isAuthUser: bool, isLoading: bool, error: Option<string>)

  const Initial: UserState := UserState(false, true, true, None)

  const FetchFailed: string := "Failed to fetch user data"

  /** The message of the `TypeError` that `undefined.includes(...)` throws. */
  const MissingListMessage: string := "Cannot read properties of undefined (reading 'includes')"

  /** `list.includes(currentCountry)`; a missing cookie (`null`) is in no list of strings. */
  predicate Lists(list: seq<string>, country: Option<string>) {
    country.Some? && country.value in list
  }

  /** One run of `fetchUserData` with the country cookie `country`. */
  function FetchUserData(state: UserState, country: Option<string>, response: Response): (next: UserState)
    ensures !next.isLoading
    ensures response.NotOk? ==> next == state.(isLoading := false, error := Some(FetchFailed))
    ensures response.Threw? ==> next == state.(isLoading := false, error := Some(response.message))
    ensures response.Json? && response.data.None? ==> next == state.(isLoading := false)
    ensures response.Json? && response.data.Some? ==>
      var d := response.data.value;
      && next.isValidUser == (if d.forumCountries.Some? && Lists(d.forumCountries.value, country)
                             then d.isValidUser else state.isValidUser)
      && next.isAuthUser == (if d.readAccess.Some? && Lists(d.readAccess.value, country)
                            then d.isAuthUser else state.isAuthUser)
      && next.error == (if d.readAccess.None? then Some(MissingListMessage) else state.error)
  {
    match response
    case NotOk => state.(isLoading := false, error := Some(FetchFailed))
    case Threw(message) => state.(isLoading := false, error := Some(message))
    case Json(None) => state.(isLoading := false)
    case Json(Some(d)) =>
      var s1 := if d.forumCountries.Some? && Lists(d.forumCountries.value, country)
                then state.(isValidUser := d.isValidUser) else state;
      match d.readAccess
      case None => s1.(isLoading := false, error := Some(MissingListMessage))
      case Some(access) =>
        var s2 := if Lists(access, country) then s1.(isAuthUser := d.isAuthUser) else s1;
        s2.(isLoading := false)
  }

  /** A flag changes only when the current country is in the corresponding list. */
  lemma FlagsChangeOnlyForListedCountry(state: UserState, country: Option<string>, response: Response)
    ensures var next := FetchUserData(state, country, response);
      && (next.isValidUser != state.isValidUser ==>
            response.Json? && response.data.Some? && response.data.value.forumCountries.Some?
            && Lists(response.data.value.forumCountries.value, country))
      && (next.isAuthUser != state.isAuthUser ==>
            response.Json? && response.data.Some? && response.data.value.readAccess.Some?
            && Lists(response.data.value.readAccess.value, country))
  {
  }

  /** Without a country cookie neither flag ever changes. */
  lemma NoCountryNoChange(state: UserState, response: Response)
    ensures var next := FetchUserData(state, None, response);
      next.isValidUser == state.isValidUser && next.isAuthUser == state.isAuthUser
  {
  }

  /** A failed request reports the fixed message and keeps both flags; starting from the
      initial state, the user therefore keeps read access and stays without write access. */
  lemma FailureKeepsDefaults(country: Option<string>)
    ensures FetchUserData(Initial, country, NotOk) == UserState(false, true, false, Some(FetchFailed))
  {
  }

  /** A body that lists the country for writing but lacks the read-access list both grants
      the write flag and reports an error: the first update has already happened when the
      second test throws. */
  lemma PartialUpdateOnMissingReadList(state: UserState, country: string, d: UserData)
    requires d.forumCountries.Some? && country in d.forumCountries.value && d.readAccess.None?
    ensures var next := FetchUserData(state, Some(country), Json(Some(d)));
      next.isValidUser == d.isValidUser && next.error == Some(MissingListMessage)
      && next.isAuthUser == state.isAuthUser
  {
  }

  /** The provider, whose effect updates the four state fields in place. */
  class ValidCountryUserProvider {
    var isValidUser: bool
    var isAuthUser: bool
    var isLoading: bool
    var error: Option<string>

    function Current(): UserState
      reads this
    {
      UserState(isValidUser, isAuthUser, isLoading, error)
    }

    constructor()
      ensures Current() == Initial
    {
      isValidUser := false;
      isAuthUser := true;
      isLoading := true;
      error := None;
    }

    /** The mount effect's `fetchUserData`, given the country cookie and how the request ended. */
    method FetchUserDataOnMount(currentCountry: Option<string>, response: Response)
      modifies this
      ensures Current() == FetchUserData(old(Current()), currentCountry, response)
    {
      match response {
        case NotOk =>
          error := Some(FetchFailed);
        case Threw(message) =>
          error := Some(message);
        case Json(data) =>
          if data.Some? {
            var d := data.value;
            if d.forumCountries.Some? && Lists(d.forumCountries.value, currentCountry) {
              isValidUser := d.isValidUser;
            }
            if d.readAccess.None? {
              error := Some(MissingListMessage);
            } else if Lists(d.readAccess.value, currentCountry) {
              isAuthUser := d.isAuthUser;
            }
          }
      }
      isLoading := false;
    }
  }

  /** `useValidUser()`: the provider's value, or the error thrown outside a provider. */
  datatype HookResult = Value(state: UserState) | OutsideProvider(message: string)

  function UseValidUser(context: Option<UserState>): (r: HookResult)
    ensures r.Value? <==> context.Some?
    ensures r.Value? ==> r.state == context.value
    ensures r.OutsideProvider? ==>
      r.message == "useValidUser must be used within a ValidCountryUserProvider"
  {
    match context
    case Some(s) => Value(s)
    case None => OutsideProvider("useValidUser must be used within a ValidCountryUserProvider")
  }
}
