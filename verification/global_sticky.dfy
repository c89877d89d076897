/**
 * The sticky side bar (src/components/GlobalSticky/index.tsx): login, logout, community
 * guideline, find-services and exit buttons, shown according to the current path, the
 * sign-up context and the user's read access.
 */
module GlobalSticky {
  import opened Wrappers
  import opened JsString
  import SiteConfig
  import ValidCountryUser

  const CommunityPath: string := "community-conversations"
  const ForumDashboardPath: string := "forum-user-dashboard"
  const ModeratorDashboardPath: string := "moderator-user-dashboard"

  /** The fields of the sign-up context that the bar reads; the context itself may be
      missing (`signupContext?.…` is then `undefined`). */
  datatype SignUp = SignUp(isUserLoggedIn: bool, showSignUpModal: bool)

  predicate LoggedIn(signup: Option<SignUp>) {
    signup.Some? && signup.value.isUserLoggedIn
  }

  /** The effect's rule for `userCanLogin`. */
  function CanLogin(pathname: string, signup: Option<SignUp>): (can: bool)
    ensures can <==> Includes(pathname, CommunityPath) && !LoggedIn(signup)
  {
    if Includes(pathname, CommunityPath) then !LoggedIn(signup) else false
  }

  /** The effect's rule for `showGuideLine`. */
  function ShowsGuideline(pathname: string): (show: bool)
    ensures show <==> Includes(pathname, CommunityPath) || Includes(pathname, ForumDashboardPath)
                      || Includes(pathname, ModeratorDashboardPath)
  {
    Includes(pathname, CommunityPath) || Includes(pathname, ForumDashboardPath)
      || Includes(pathname, ModeratorDashboardPath)
  }

  /** Whoever may log in is on a community page, so the guideline is offered too. */
  lemma LoginComesWithGuideline(pathname: string, signup: Option<SignUp>)
    ensures CanLogin(pathname, signup) ==> ShowsGuideline(pathname)
  {
  }

  /** The dashboards show the guideline but never offer a login, unless the path also
      mentions the community pages. */
  lemma DashboardsOfferNoLogin(pathname: string, signup: Option<SignUp>)
    requires !Includes(pathname, CommunityPath)
    requires Includes(pathname, ForumDashboardPath) || Includes(pathname, ModeratorDashboardPath)
    ensures ShowsGuideline(pathname) && !CanLogin(pathname, signup)
  {
  }

  datatype Side = Left | Right

  /** The login block: present, and clickable or greyed out. */
  datatype LoginBlock = LoginBlock(interactive: bool)

  /** What the bar shows. */
  datatype Bar = Bar(
    hidden: bool,
    side: Side,
    login: Option<LoginBlock>,
    logoutButton: bool,
    guideline: bool,
    servicesHref: string,
    guidelineModal: bool)

  /** The rendered bar, from the component state (`userCanLogin`, `showGuideLine`,
      `isModalOpen`), the sign-up context, the locale and the user's `isAuthUser`. */
  function Render(userCanLogin: bool, showGuideLine: bool, isModalOpen: Option<bool>,
                  signup: Option<SignUp>, locale: string, isAuthUser: bool): (bar: Bar)
    ensures bar.hidden <==> signup.Some? && signup.value.showSignUpModal
    ensures bar.side == Left <==> locale in SiteConfig.RtlLocales
    ensures bar.login.Some? <==> userCanLogin
    ensures bar.login.Some? ==> (bar.login.value.interactive <==> isAuthUser)
    ensures bar.logoutButton <==> LoggedIn(signup)
    ensures bar.guideline <==> showGuideLine
    ensures bar.guidelineModal <==> isModalOpen == Some(true)
    ensures bar.servicesHref == "/" + locale + "/access-services"
  {
    Bar(
      signup.Some? && signup.value.showSignUpModal,
      if locale in SiteConfig.RtlLocales then Left else Right,
      if userCanLogin then Some(LoginBlock(isAuthUser)) else None,
      LoggedIn(signup),
      showGuideLine,
      "/" + locale + "/access-services",
      isModalOpen == Some(true))
  }

  /** The bar's own state, set by its effect and its guideline handlers. */
  class StickyBar {
    var userCanLogin: bool
    var showGuideLine: bool
    var isModalOpen: Option<bool>

    constructor()
      ensures !userCanLogin && !showGuideLine && isModalOpen == None
    {
      userCanLogin := false;
      showGuideLine := false;
      isModalOpen := None;
    }

    /** The effect run on each change of `pathname` or of the sign-up context. */
    method SyncWithPath(pathname: string, signup: Option<SignUp>)
      modifies this
      ensures userCanLogin == CanLogin(pathname, signup)
      ensures showGuideLine == ShowsGuideline(pathname)
      ensures isModalOpen == old(isModalOpen)
    {
      if Includes(pathname, CommunityPath) {
        if signup.Some? && signup.value.isUserLoggedIn {
          userCanLogin := false;
        } else {
          userCanLogin := true;
        }
      } else {
        userCanLogin := false;
      }
      if Includes(pathname, CommunityPath) || Includes(pathname, ForumDashboardPath)
         || Includes(pathname, ModeratorDashboardPath) {
        showGuideLine := true;
      } else {
        showGuideLine := false;
      }
    }

    method OpenModal()
      modifies this
      ensures isModalOpen == Some(true)
      ensures userCanLogin == old(userCanLogin) && showGuideLine == old(showGuideLine)
    {
      isModalOpen := Some(true);
    }

    method CloseModal()
      modifies this
      ensures isModalOpen == Some(false)
      ensures userCanLogin == old(userCanLogin) && showGuideLine == old(showGuideLine)
    {
      isModalOpen := Some(false);
    }
  }

  /** Once the effect has run for the current context, the bar never shows both the login
      block and the logout button. */
  lemma LoginAndLogoutExclusive(pathname: string, signup: Option<SignUp>, isModalOpen: Option<bool>,
                                locale: string, isAuthUser: bool)
    ensures var bar := Render(CanLogin(pathname, signup), ShowsGuideline(pathname), isModalOpen,
                              signup, locale, isAuthUser);
      !(bar.login.Some? && bar.logoutButton)
  {
  }

  /** Until the user check has answered, `isAuthUser` keeps its initial `true`, so an
      offered login block is clickable. */
  lemma LoginClickableBeforeUserCheck(pathname: string, signup: Option<SignUp>, locale: string)
    requires CanLogin(pathname, signup)
    ensures var bar := Render(true, ShowsGuideline(pathname), None, signup, locale,
                              ValidCountryUser.Initial.isAuthUser);
      bar.login == Some(LoginBlock(true))
  {
  }
}
