/** Page dispatch of `navigateTo`. */
module Navigation {

  /** The screens the client renders. */
  datatype Screen = LoadingScreen | AuthScreen | VerificationScreen | FeedScreen
                  | ProfileScreen | SearchScreen | NotificationsScreen

  /** The page names `navigateTo` dispatches on. */
  function KnownPages(): set<string>
  {
    {"loading", "auth", "verification", "feed", "profile", "search", "notifications"}
  }

  /** The name each screen is reached by. */
  function PageName(s: Screen): string
  {
    match s
    case LoadingScreen => "loading"
    case AuthScreen => "auth"
    case VerificationScreen => "verification"
    case FeedScreen => "feed"
    case ProfileScreen => "profile"
    case SearchScreen => "search"
    case NotificationsScreen => "notifications"
  }

  /** The screen `navigateTo(page)` renders: the one of that name, and the
      feed for any name it does not know. */
  function ScreenFor(page: string): (s: Screen)
    ensures page in KnownPages() ==> PageName(s) == page
    ensures page !in KnownPages() ==> s == FeedScreen
  {
    match page
    case "loading" => LoadingScreen
    case "auth" => AuthScreen
    case "verification" => VerificationScreen
    case "feed" => FeedScreen
    case "profile" => ProfileScreen
    case "search" => SearchScreen
    case "notifications" => NotificationsScreen
    case _ => FeedScreen
  }

  /** Every screen is reached by its own name, and a page name comes back
      from the screen it selects exactly when it is a known name. */
  lemma DispatchRoundTrip(s: Screen, page: string)
    ensures ScreenFor(PageName(s)) == s
    ensures PageName(ScreenFor(page)) == page <==> page in KnownPages()
  {
  }
}
