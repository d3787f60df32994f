/** The pure rules of the layout shell (client/components/MobileLayout.tsx):
    avatar initials, role and farm labels, the seven-entry navigation list
    with its role-gated visibility, the active-entry test, the page title and
    the stock-notification count shown on the Stock entry. */
module MobileLayout {
  import opened ArrayOps
  import opened Strings

  /** The signed-in user as the shell reads it. An absent `nom`, `email`,
      `role` or `fermeId` is the empty string: every use of these fields in
      the shell goes through `x || fallback`, which treats both alike. */
  datatype User = User(nom: string, email: string, role: string, fermeId: string)

  /** The role flags supplied by the authentication context. They are
      independent inputs here: any combination can be asked about. */
  datatype Access = Access(isSuperAdmin: bool, isAdmin: bool, isUser: bool, hasAllFarmsAccess: bool)

  // ---------------------------------------------------------------------
  // Avatar initials

  predicate NonEmpty(word: string) {
    word != []
  }

  /** `words.map(word => word[0]).join('')`: `word[0]` of an empty word is
      `undefined`, which `join` renders as nothing. */
  function FirstChars(words: seq<string>): (r: string)
    ensures |r| == Count(words, NonEmpty)
  {
    if words == [] then []
    else (if words[0] == [] then [] else [words[0][0]]) + FirstChars(words[1..])
  }

  /** `getInitials`: the upper-cased first character of every `' '`-separated
      token. Empty tokens (repeated, leading or trailing spaces) contribute
      nothing, so there are never more initials than tokens. */
  function GetInitials(name: string): (r: string)
    ensures |r| == Count(Split(name, ' '), NonEmpty) <= Occurrences(name, ' ') + 1
  {
    UpperCase(FirstChars(Split(name, ' ')))
  }

  /** An independent description of the initials: scanning left to right, a
      character is an initial when it is not a space and is either the first
      character or follows a space. */
  function WordStarts(s: string, afterSpace: bool): string {
    if s == [] then []
    else (if afterSpace && s[0] != ' ' then [s[0]] else []) + WordStarts(s[1..], s[0] == ' ')
  }

  lemma {:induction false} FirstCharsOfSplit(s: string)
    ensures FirstChars(Split(s, ' ')) == WordStarts(s, true)
    ensures FirstChars(Split(s, ' ')[1..]) == WordStarts(s, false)
  {
    if s != [] {
      FirstCharsOfSplit(s[1..]);
      var rest := Split(s[1..], ' ');
      if s[0] == ' ' {
        assert Split(s, ' ') == [[]] + rest;
        assert Split(s, ' ')[1..] == rest;
      } else {
        var words := Split(s, ' ');
        assert words == [[s[0]] + rest[0]] + rest[1..];
        assert words[1..] == rest[1..];
        assert FirstChars(words) == [s[0]] + FirstChars(rest[1..]);
      }
    }
  }

  /** The split/map/join pipeline computes exactly the word starts. */
  lemma InitialsAreWordStarts(name: string)
    ensures GetInitials(name) == UpperCase(WordStarts(name, true))
  {
    FirstCharsOfSplit(name);
  }

  /** A name that does not start with a space has at least one initial. */
  lemma InitialsNonEmpty(name: string)
    requires name != [] && name[0] != ' '
    ensures GetInitials(name) != []
  {
    InitialsAreWordStarts(name);
    assert WordStarts(name, true) == [name[0]] + WordStarts(name[1..], false);
  }

  /** The avatar text source: `user?.nom || user?.email || 'U'`. */
  function AvatarSource(user: Option<User>): (src: string)
    ensures src != []
    ensures user.Some? && user.value.nom != [] ==> src == user.value.nom
    ensures user.Some? && user.value.nom == [] && user.value.email != [] ==> src == user.value.email
    ensures (user.None? || (user.value.nom == [] && user.value.email == [])) ==> src == "U"
  {
    if user.Some? && user.value.nom != [] then user.value.nom
    else if user.Some? && user.value.email != [] then user.value.email
    else "U"
  }

  /** "Ahmed Ben" gives "AB". */
  lemma InitialsOfTwoWords()
    ensures GetInitials("Ahmed Ben") == "AB"
  {
    InitialsAreWordStarts("Ahmed Ben");
  }

  /** With no name the avatar falls back to the e-mail address, and with
      neither to "U". */
  lemma AvatarFallbacks()
    ensures GetInitials(AvatarSource(Some(User("", "u@x.com", "user", "")))) == "U"
    ensures GetInitials(AvatarSource(None)) == "U"
  {
    InitialsAreWordStarts("u@x.com");
    InitialsAreWordStarts("U");
  }

  // ---------------------------------------------------------------------
  // Labels

  /** `getRoleLabel`: the three known roles get their French labels; any
      other value, the empty string included, is shown as it is. */
  function GetRoleLabel(role: string): (text: string)
    ensures role == "superadmin" ==> text == "Super Administrateur"
    ensures role == "admin" ==> text == "Administrateur"
    ensures role == "user" ==> text == "Utilisateur"
    ensures text == role <==> role != "superadmin" && role != "admin" && role != "user"
  {
    match role
    case "superadmin" => "Super Administrateur"
    case "admin" => "Administrateur"
    case "user" => "Utilisateur"
    case _ => role
  }

  /** The profile lines: `user?.nom || user?.email` and
      `getRoleLabel(user?.role || '')`. */
  function DisplayName(user: Option<User>): (name: string)
    ensures user.None? ==> name == []
    ensures user.Some? && user.value.nom != [] ==> name == user.value.nom
    ensures user.Some? && user.value.nom == [] ==> name == user.value.email
  {
    if user.None? then [] else if user.value.nom != [] then user.value.nom else user.value.email
  }

  function DisplayRole(user: Option<User>): (text: string)
    ensures user.None? ==> text == []
    ensures user.Some? ==> text == GetRoleLabel(user.value.role)
  {
    GetRoleLabel(if user.Some? then user.value.role else [])
  }

  /** An organisational unit ("ferme"); an absent `nom` is the empty string. */
  datatype Ferme = Ferme(id: string, nom: string)

  /** `getFermeName`: `''` gives `'-'`, `'all'` gives `'Toutes les fermes'`,
      an unknown id or a farm without a name gives the id itself. An absent
      farm list is the empty sequence. */
  function GetFermeName(fermeId: string, fermes: seq<Ferme>): (r: string)
    ensures fermeId == "" ==> r == "-"
    ensures fermeId == "all" ==> r == "Toutes les fermes"
    ensures fermeId != "" ==> r != ""
    ensures fermeId != "" && fermeId != "all" && r != fermeId ==>
      exists i :: 0 <= i < |fermes| && fermes[i].id == fermeId && fermes[i].nom == r
  {
    if fermeId == "" then "-"
    else if fermeId == "all" then "Toutes les fermes"
    else if |fermes| == 0 then fermeId
    else match Find(fermes, (f: Ferme) => f.id == fermeId)
      case None => fermeId
      case Some(f) => if f.nom != "" then f.nom else fermeId
  }

  /** The first farm with the id decides; a later farm with the same id is
      never consulted. */
  lemma FermeNameFound(fermeId: string, fermes: seq<Ferme>, i: nat)
    requires fermeId != "" && fermeId != "all"
    requires i < |fermes| && fermes[i].id == fermeId
    requires forall j :: 0 <= j < i ==> fermes[j].id != fermeId
    ensures GetFermeName(fermeId, fermes) == if fermes[i].nom != "" then fermes[i].nom else fermeId
  {
    FindIsFirst(fermes, (f: Ferme) => f.id == fermeId, i);
  }

  /** An id that no farm has is shown as it is. */
  lemma FermeNameUnknown(fermeId: string, fermes: seq<Ferme>)
    requires fermeId != "" && fermeId != "all"
    requires forall j :: 0 <= j < |fermes| ==> fermes[j].id != fermeId
    ensures GetFermeName(fermeId, fermes) == fermeId
  {
  }

  /** The farm line under the title: rendered only when `user?.fermeId` is
      set, so the `'-'` branch of `getFermeName` is never reached from here. */
  function FarmSubtitle(user: Option<User>, fermes: seq<Ferme>): (r: Option<string>)
    ensures r.Some? <==> user.Some? && user.value.fermeId != ""
    ensures r.Some? ==> r.value != "" && r.value == GetFermeName(user.value.fermeId, fermes)
  {
    if user.Some? && user.value.fermeId != "" then Some(GetFermeName(user.value.fermeId, fermes)) else None
  }

  // ---------------------------------------------------------------------
  // Stock notifications

  datatype StockAlert = StockAlert(secteurId: string, acknowledged: bool)
  datatype StockTransfer = StockTransfer(toSecteurId: string, status: string)

  /** The alert query: unacknowledged, and in the user's farm unless the
      user has access to all farms. */
  predicate AlertInQuery(a: StockAlert, hasAllFarmsAccess: bool, scope: string) {
    !a.acknowledged && (hasAllFarmsAccess || a.secteurId == scope)
  }

  predicate IsPendingOrInTransit(t: StockTransfer) {
    t.status == "pending" || t.status == "in_transit"
  }

  /** The value published to the Stock entry, given the latest snapshots of
      the two collections: the alert query's size plus the transfers to the
      user's farm (`user.fermeId || ''`) filtered client-side to `pending` or
      `in_transit`. The transfer scope ignores `hasAllFarmsAccess`. Without a
      user the count keeps its initial value 0. */
  function StockNotifications(user: Option<User>, hasAllFarmsAccess: bool,
                              alerts: seq<StockAlert>, transfers: seq<StockTransfer>): (n: nat)
    ensures user.None? ==> n == 0
    ensures n <= |alerts| + |transfers|
  {
    if user.None? then 0
    else
      var scope := user.value.fermeId;
      var alertCount := |Filter(alerts, a => AlertInQuery(a, hasAllFarmsAccess, scope))|;
      var transferSnapshot := Filter(transfers, (t: StockTransfer) => t.toSecteurId == scope);
      var pendingTransferCount := |Filter(transferSnapshot, IsPendingOrInTransit)|;
      alertCount + pendingTransferCount
  }

  predicate PendingTo(t: StockTransfer, scope: string) {
    t.toSecteurId == scope && IsPendingOrInTransit(t)
  }

  /** The count is A + T: the alerts matching the alert query plus the
      pending or in-transit transfers addressed to the user's farm. */
  lemma StockCountFormula(user: User, hasAllFarmsAccess: bool,
                          alerts: seq<StockAlert>, transfers: seq<StockTransfer>)
    ensures StockNotifications(Some(user), hasAllFarmsAccess, alerts, transfers)
         == Count(alerts, a => AlertInQuery(a, hasAllFarmsAccess, user.fermeId))
          + Count(transfers, t => PendingTo(t, user.fermeId))
  {
    var scope := user.fermeId;
    CountIsFilterLength(alerts, a => AlertInQuery(a, hasAllFarmsAccess, scope));
    var snapshot := Filter(transfers, (t: StockTransfer) => t.toSecteurId == scope);
    CountIsFilterLength(snapshot, IsPendingOrInTransit);
    CountOfFilter(transfers, (t: StockTransfer) => t.toSecteurId == scope, IsPendingOrInTransit,
                  t => PendingTo(t, scope));
  }

  /** Access to all farms adds exactly the unacknowledged alerts of other
      farms; the transfer part does not change. */
  lemma AllFarmsAccessAddsOtherFarmAlerts(user: User, alerts: seq<StockAlert>, transfers: seq<StockTransfer>)
    ensures StockNotifications(Some(user), true, alerts, transfers)
         == StockNotifications(Some(user), false, alerts, transfers)
          + Count(alerts, (a: StockAlert) => !a.acknowledged && a.secteurId != user.fermeId)
  {
    var scope := user.fermeId;
    StockCountFormula(user, true, alerts, transfers);
    StockCountFormula(user, false, alerts, transfers);
    CountPartition(alerts, a => AlertInQuery(a, true, scope), a => AlertInQuery(a, false, scope),
                   (a: StockAlert) => !a.acknowledged && a.secteurId != scope);
  }

  // ---------------------------------------------------------------------
  // Navigation

  /** A navigation entry (its icon is not modelled). */
  datatype NavEntry = NavEntry(name: string, href: string, show: bool, notificationCount: nat)

  function Href(e: NavEntry): string { e.href }
  function Name(e: NavEntry): string { e.name }

  /** The `navigation` array: seven entries in a fixed order, each shown
      according to the role flags; only Stock carries a count. */
  function Navigation(access: Access, stockNotifications: nat): (nav: seq<NavEntry>)
    ensures |nav| == 7
  {
    var a := access;
    [ NavEntry("Tableau de bord", "/", true, 0),
      NavEntry("Fermes", "/fermes", a.hasAllFarmsAccess || a.isUser, 0),
      NavEntry("Ouvriers", "/ouvriers", !a.isUser, 0),
      NavEntry("Chambres", "/chambres", a.isSuperAdmin || a.isAdmin || a.isUser, 0),
      NavEntry("Stock", "/stock", a.isSuperAdmin || a.isAdmin || a.isUser, stockNotifications),
      NavEntry("Statistiques", "/statistiques", true, 0),
      NavEntry("Administration", "/admin", a.isSuperAdmin, 0) ]
  }

  /** Routes and names are distinct, every name is non-empty, and only the
      Stock entry carries a count. */
  lemma NavigationShape(access: Access, stockNotifications: nat)
    ensures var nav := Navigation(access, stockNotifications);
      && DistinctBy(nav, Href) && DistinctBy(nav, Name)
      && (forall i :: 0 <= i < |nav| ==> nav[i].name != "")
      && (forall i :: 0 <= i < |nav| && nav[i].name != "Stock" ==> nav[i].notificationCount == 0)
  {
  }

  predicate Shown(e: NavEntry) { e.show }

  /** `navigation.filter(item => item.show)`. */
  function Visible(nav: seq<NavEntry>): (v: seq<NavEntry>)
    ensures |v| <= |nav|
    ensures forall i :: 0 <= i < |v| ==> v[i].show && v[i] in nav
    ensures forall i :: 0 <= i < |nav| && nav[i].show ==> nav[i] in v
  {
    Filter(nav, Shown)
  }

  function Names(entries: seq<NavEntry>): seq<string> {
    if entries == [] then [] else [entries[0].name] + Names(entries[1..])
  }

  lemma {:induction false} NamesAppend(s: seq<NavEntry>, t: seq<NavEntry>)
    ensures Names(s + t) == Names(s) + Names(t)
  {
    if s == [] {
      assert s + t == t;
    } else {
      assert (s + t)[1..] == s[1..] + t;
      NamesAppend(s[1..], t);
    }
  }

  /** The names an entry contributes to the visible list. */
  function Keep(e: NavEntry): seq<string> {
    if e.show then [e.name] else []
  }

  lemma NamesOfVisibleCons(e: NavEntry, rest: seq<NavEntry>, tail: seq<string>)
    requires Names(Visible(rest)) == tail
    ensures Names(Visible([e] + rest)) == Keep(e) + tail
  {
    assert ([e] + rest)[1..] == rest;
    var head := if e.show then [e] else [];
    assert Visible([e] + rest) == head + Visible(rest);
    NamesAppend(head, Visible(rest));
  }

  /** The visible names of a seven-entry list, entry by entry. */
  lemma {:induction false} NamesOfVisibleSeven(e0: NavEntry, e1: NavEntry, e2: NavEntry, e3: NavEntry,
                                               e4: NavEntry, e5: NavEntry, e6: NavEntry)
    ensures Names(Visible([e0, e1, e2, e3, e4, e5, e6]))
         == Keep(e0) + (Keep(e1) + (Keep(e2) + (Keep(e3) + (Keep(e4) + (Keep(e5) + Keep(e6))))))
  {
    NamesOfVisibleCons(e6, [], []);
    assert [e6] + [] == [e6] && Keep(e6) + [] == Keep(e6);
    NamesOfVisibleCons(e5, [e6], Keep(e6));
    assert [e5] + [e6] == [e5, e6];
    var k5 := Keep(e5) + Keep(e6);
    NamesOfVisibleCons(e4, [e5, e6], k5);
    assert [e4] + [e5, e6] == [e4, e5, e6];
    var k4 := Keep(e4) + k5;
    NamesOfVisibleCons(e3, [e4, e5, e6], k4);
    assert [e3] + [e4, e5, e6] == [e3, e4, e5, e6];
    var k3 := Keep(e3) + k4;
    NamesOfVisibleCons(e2, [e3, e4, e5, e6], k3);
    assert [e2] + [e3, e4, e5, e6] == [e2, e3, e4, e5, e6];
    var k2 := Keep(e2) + k3;
    NamesOfVisibleCons(e1, [e2, e3, e4, e5, e6], k2);
    assert [e1] + [e2, e3, e4, e5, e6] == [e1, e2, e3, e4, e5, e6];
    var k1 := Keep(e1) + k2;
    NamesOfVisibleCons(e0, [e1, e2, e3, e4, e5, e6], k1);
    assert [e0] + [e1, e2, e3, e4, e5, e6] == [e0, e1, e2, e3, e4, e5, e6];
  }

  /** The visible entries, in declaration order, for every combination of
      role flags. */
  lemma VisibleInDeclarationOrder(access: Access, stockNotifications: nat)
    ensures var a := access; var staff := a.isSuperAdmin || a.isAdmin || a.isUser;
      Names(Visible(Navigation(access, stockNotifications)))
      == ["Tableau de bord"]
       + ((if a.hasAllFarmsAccess || a.isUser then ["Fermes"] else [])
       + ((if !a.isUser then ["Ouvriers"] else [])
       + ((if staff then ["Chambres"] else [])
       + ((if staff then ["Stock"] else [])
       + (["Statistiques"]
       + (if a.isSuperAdmin then ["Administration"] else []))))))
  {
    var nav := Navigation(access, stockNotifications);
    assert nav == [nav[0], nav[1], nav[2], nav[3], nav[4], nav[5], nav[6]];
    NamesOfVisibleSeven(nav[0], nav[1], nav[2], nav[3], nav[4], nav[5], nav[6]);
  }

  /** "Tableau de bord" and "Statistiques" are shown to everyone. */
  lemma AlwaysVisible(access: Access, stockNotifications: nat)
    ensures "Tableau de bord" in Names(Visible(Navigation(access, stockNotifications)))
    ensures "Statistiques" in Names(Visible(Navigation(access, stockNotifications)))
  {
    VisibleInDeclarationOrder(access, stockNotifications);
  }

  /** "Administration" is shown exactly to a super-admin. */
  lemma AdministrationVisibility(access: Access, stockNotifications: nat)
    ensures "Administration" in Names(Visible(Navigation(access, stockNotifications))) <==> access.isSuperAdmin
  {
    VisibleInDeclarationOrder(access, stockNotifications);
  }

  /** "Ouvriers" is shown exactly when the role is not plain user. */
  lemma OuvriersVisibility(access: Access, stockNotifications: nat)
    ensures "Ouvriers" in Names(Visible(Navigation(access, stockNotifications))) <==> !access.isUser
  {
    VisibleInDeclarationOrder(access, stockNotifications);
  }

  /** "Stock" is shown to a super-admin, an admin or a user. */
  lemma StockVisibility(access: Access, stockNotifications: nat)
    ensures "Stock" in Names(Visible(Navigation(access, stockNotifications)))
        <==> access.isSuperAdmin || access.isAdmin || access.isUser
  {
    VisibleInDeclarationOrder(access, stockNotifications);
  }

  /** `isActive`: exact equality of the path and the route, no prefix match. */
  predicate IsActive(pathname: string, e: NavEntry)
    ensures IsActive(pathname, e) ==> |pathname| == |e.href|
  {
    pathname == e.href
  }

  /** There is no prefix matching: a path that extends an entry's route,
      such as a sub-page of "/stock", does not make that entry active, and
      the dashboard route "/" is active on no other page. */
  lemma NoPrefixActivation(e: NavEntry, rest: string)
    requires rest != ""
    ensures !IsActive(e.href + rest, e)
  {
    assert |e.href + rest| > |e.href|;
  }

  /** Routes are distinct, so no two visible entries are active at once. */
  lemma AtMostOneActive(access: Access, stockNotifications: nat, pathname: string)
    ensures var v := Visible(Navigation(access, stockNotifications));
      forall i, j :: 0 <= i < j < |v| ==> !(IsActive(pathname, v[i]) && IsActive(pathname, v[j]))
  {
    var nav := Navigation(access, stockNotifications);
    NavigationShape(access, stockNotifications);
    FilterKeepsDistinct(nav, Shown, Href);
    var v := Visible(nav);
    forall i, j | 0 <= i < j < |v| ensures !(IsActive(pathname, v[i]) && IsActive(pathname, v[j])) {
      assert Href(v[i]) != Href(v[j]);
    }
  }

  /** `item.notificationCount > 0 && <Badge/>`. */
  predicate HasBadge(e: NavEntry) {
    e.notificationCount > 0
  }

  /** The number of badges drawn in the visible menu: one, on Stock, when
      the stock count is positive and Stock is visible; none otherwise. */
  lemma BadgeCount(access: Access, stockNotifications: nat)
    ensures Count(Visible(Navigation(access, stockNotifications)), HasBadge)
         == if stockNotifications > 0 && (access.isSuperAdmin || access.isAdmin || access.isUser) then 1 else 0
  {
    var nav := Navigation(access, stockNotifications);
    var both := (e: NavEntry) => e.show && HasBadge(e);
    CountOfFilter(nav, Shown, HasBadge, both);
    NavigationShape(access, stockNotifications);
    assert forall i :: 0 <= i < |nav| && i != 4 ==> !both(nav[i]) by {
      forall i | 0 <= i < |nav| && i != 4 ensures !both(nav[i]) {
        assert Name(nav[i]) != Name(nav[4]);
      }
    }
    CountSingle(nav, both, 4);
  }

  /** Only the Stock entry can show a badge, and it does exactly when the
      stock count is positive and Stock is visible. */
  lemma BadgeOnlyOnStock(access: Access, stockNotifications: nat)
    ensures var v := Visible(Navigation(access, stockNotifications));
      forall k :: 0 <= k < |v| && HasBadge(v[k]) ==> v[k].name == "Stock"
    ensures var nav := Navigation(access, stockNotifications);
      nav[4].name == "Stock" && (HasBadge(nav[4]) <==> stockNotifications > 0)
    ensures (exists k :: 0 <= k < |Visible(Navigation(access, stockNotifications))|
                && HasBadge(Visible(Navigation(access, stockNotifications))[k]))
        <==> stockNotifications > 0 && (access.isSuperAdmin || access.isAdmin || access.isUser)
  {
    var nav := Navigation(access, stockNotifications);
    var v := Visible(nav);
    VisibleInDeclarationOrder(access, stockNotifications);
    if stockNotifications > 0 && (access.isSuperAdmin || access.isAdmin || access.isUser) {
      assert nav[4] in v;
      var k :| 0 <= k < |v| && v[k] == nav[4];
      assert HasBadge(v[k]);
    }
  }

  /** `getCurrentPageName`: the name of the first entry of the UNFILTERED list
      whose route is the path, otherwise `'Page'`. */
  function GetCurrentPageName(nav: seq<NavEntry>, pathname: string): (title: string)
    ensures title != ""
    ensures title != "Page" ==> exists i :: 0 <= i < |nav| && nav[i].href == pathname && nav[i].name == title
    ensures (forall i :: 0 <= i < |nav| ==> nav[i].href != pathname) ==> title == "Page"
  {
    match Find(nav, (e: NavEntry) => e.href == pathname)
    case Some(e) => if e.name != "" then e.name else "Page"
    case None => "Page"
  }

  /** The title of a route in the list is that entry's name, whether or not
      the entry is visible; a path no entry routes to gives `'Page'`. */
  lemma PageTitle(access: Access, stockNotifications: nat, pathname: string)
    ensures var nav := Navigation(access, stockNotifications);
      forall i :: 0 <= i < |nav| && nav[i].href == pathname ==> GetCurrentPageName(nav, pathname) == nav[i].name
    ensures var nav := Navigation(access, stockNotifications);
      (forall i :: 0 <= i < |nav| ==> nav[i].href != pathname) <==> GetCurrentPageName(nav, pathname) == "Page"
  {
    var nav := Navigation(access, stockNotifications);
    NavigationShape(access, stockNotifications);
    forall i | 0 <= i < |nav| && nav[i].href == pathname
      ensures GetCurrentPageName(nav, pathname) == nav[i].name
    {
      forall j | 0 <= j < i ensures nav[j].href != pathname {
        assert Href(nav[j]) != Href(nav[i]);
      }
      FindIsFirst(nav, (e: NavEntry) => e.href == pathname, i);
    }
  }

  /** The title of an active visible entry is its name. */
  lemma ActiveEntryTitle(access: Access, stockNotifications: nat, pathname: string, k: nat)
    requires k < |Visible(Navigation(access, stockNotifications))|
    requires IsActive(pathname, Visible(Navigation(access, stockNotifications))[k])
    ensures GetCurrentPageName(Navigation(access, stockNotifications), pathname)
         == Visible(Navigation(access, stockNotifications))[k].name
  {
    var nav := Navigation(access, stockNotifications);
    var e := Visible(nav)[k];
    assert e in nav;
    var i :| 0 <= i < |nav| && nav[i] == e;
    PageTitle(access, stockNotifications, pathname);
  }

  /** A hidden entry still names the page: without super-admin rights the
      Administration entry is not visible, yet on its route it is the title. */
  lemma HiddenEntryTitle(access: Access, stockNotifications: nat)
    requires !access.isSuperAdmin
    ensures "Administration" !in Names(Visible(Navigation(access, stockNotifications)))
    ensures GetCurrentPageName(Navigation(access, stockNotifications), "/admin") == "Administration"
  {
    AdministrationVisibility(access, stockNotifications);
    PageTitle(access, stockNotifications, "/admin");
    var nav := Navigation(access, stockNotifications);
    assert nav[6].href == "/admin" && nav[6].name == "Administration";
  }
}
