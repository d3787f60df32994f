# Farm-management web client: layout shell and supervisor registry

This project is a verified Dafny model of two React components of a
farm-management web client.

- **The layout shell** (`client/components/MobileLayout.tsx`). It holds the
  labelling and navigation rules of every page:
  - the avatar initials and their fallbacks;
  - the role label;
  - the farm-name lookup;
  - the fixed seven-entry navigation list, its visibility rules and the
    order-preserving filter that shows it;
  - the active-entry test and the page title;
  - the number shown on the Stock badge.

  These are pure functions (module `MobileLayout`). They rest on small models
  of the JavaScript array and string operations the component uses:
  - module `ArrayOps`: `filter`, `find`/`findIndex` and `filter(...).length`;
  - module `Strings`: `split` and `toUpperCase`, with `Join`, the join on
    the same one-character separator, as the inverse of `split`. The
    `join('')` of the initials is `MobileLayout.FirstChars`.
- **The supervisor registry** (`client/components/SupervisorManagement.tsx`).
  This is a form and list controller over six state variables: the form, the
  record being edited, the dialog flag, the busy flag, the error text and the
  message text.
  - Class `SupervisorPanel` keeps these as fields. Its handler methods update
    them step by step, as the React setters do.
  - The CRUD collaborator is class `Backend`, a log of the calls issued to it.
  - Every handler is proved equal to a pure step function on a `Panel` value.
    Those functions carry the properties: per handler, and over any sequence
    of user actions (`Run`).

Inputs from outside the components are parameters:
- the signed-in user and the role flags;
- the current path and the farm list;
- the alert and transfer documents;
- the outcome of an awaited backend call;
- the answer to the confirmation prompt;
- the two clock readings of a submit: one for `updatedAt` and one for
  `createdAt`, which the source takes separately.

An absent optional string (`user.fermeId`, `user.nom`, an error without a
message) is the empty string. The source only ever reads such a value through
`x || fallback`, so absent and empty behave alike. A supervisor's company is an
`Option<string>`.

The success texts set at SupervisorManagement.tsx lines 88/95 never survive:
`resetForm` (line 98) clears them straight away. So after a successful save
`message` is empty (`SubmitSuccessResets`).

## Model

| member | source | states |
|---|---|---|
| ArrayOps.Filter | client/components/MobileLayout.tsx:224-225 | `filter` keeps exactly the elements satisfying the predicate: every result element is in the input and satisfies it, and every satisfying input element is kept |
| ArrayOps.FilterAppend | client/components/MobileLayout.tsx:224-225 | filtering distributes over concatenation, so the filter keeps the original order |
| ArrayOps.FilterKeepsDistinct | client/components/MobileLayout.tsx:224-225 | elements pairwise distinct under a key stay distinct after filtering |
| ArrayOps.Count | client/components/MobileLayout.tsx:90-94 | `filter(p).length` is at most the input length |
| ArrayOps.CountIsFilterLength | client/components/MobileLayout.tsx:90-94 | the count is the length of the filtered sequence |
| ArrayOps.CountAppend | client/components/MobileLayout.tsx:90-94 | counting is additive over concatenation |
| ArrayOps.CountPartition | client/components/MobileLayout.tsx:75-79 | splitting a predicate into two disjoint cases splits the count |
| ArrayOps.CountOfFilter | client/components/MobileLayout.tsx:90-94 | counting inside a filtered sequence counts the conjunction of the two predicates |
| ArrayOps.FindIndex | client/components/MobileLayout.tsx:64 | `findIndex` returns the first index satisfying the predicate, or none when no element does |
| ArrayOps.Find | client/components/MobileLayout.tsx:64 | `find` returns an element of the sequence satisfying the predicate, and none exactly when no element does |
| ArrayOps.FindIsFirst | client/components/MobileLayout.tsx:175 | `find` returns the first match, whatever comes later |
| Strings.Split | client/components/MobileLayout.tsx:159 | `split` gives one more piece than there are separators, and no piece contains the separator |
| Strings.JoinPrepend | client/components/MobileLayout.tsx:159 | prefixing the first piece prefixes the join |
| Strings.JoinSplit | client/components/MobileLayout.tsx:159 | joining the pieces of a split gives back the string |
| Strings.SplitWithoutSeparator | client/components/MobileLayout.tsx:159 | a string without the separator is one piece |
| Strings.SplitAfterPiece | client/components/MobileLayout.tsx:159 | a separator-free prefix and a separator split off as the first piece |
| Strings.SplitJoin | client/components/MobileLayout.tsx:159 | splitting a join of separator-free pieces gives back the pieces |
| Strings.ToUpper | client/components/MobileLayout.tsx:162 | lower-case ASCII letters map to their upper case; every other character is unchanged |
| Strings.UpperCase | client/components/MobileLayout.tsx:162 | `toUpperCase` keeps the length and upper-cases each character |
| MobileLayout.FirstChars | client/components/MobileLayout.tsx:160-161 | `map(word => word[0]).join('')` gives one character per non-empty word |
| MobileLayout.GetInitials | client/components/MobileLayout.tsx:157-163 | there is one initial per non-empty token, so never more initials than tokens |
| MobileLayout.FirstCharsOfSplit | client/components/MobileLayout.tsx:159-161 | the split/map/join pipeline equals the independent word-start scan |
| MobileLayout.InitialsAreWordStarts | client/components/MobileLayout.tsx:157-163 | the initials are the upper-cased characters that start a word (not a space, first or after a space) |
| MobileLayout.InitialsNonEmpty | client/components/MobileLayout.tsx:157-163 | a name not starting with a space has at least one initial |
| MobileLayout.AvatarSource | client/components/MobileLayout.tsx:270 | the avatar text is the name, else the e-mail, else "U", and is never empty |
| MobileLayout.InitialsOfTwoWords | client/components/MobileLayout.tsx:157-163 | "Ahmed Ben" gives "AB" |
| MobileLayout.AvatarFallbacks | client/components/MobileLayout.tsx:270 | a user with only an e-mail, and no user at all, both get the initial "U" |
| MobileLayout.GetRoleLabel | client/components/MobileLayout.tsx:165-172 | the three roles map to their French labels; a value is returned unchanged exactly when it is none of the three |
| MobileLayout.DisplayName | client/components/MobileLayout.tsx:275 | the profile name is the user's name, else the e-mail, and empty without a user |
| MobileLayout.DisplayRole | client/components/MobileLayout.tsx:278 | the profile role is the role label of the user's role, and empty without a user |
| MobileLayout.GetFermeName | client/components/MobileLayout.tsx:60-66 | "" gives "-"; "all" gives "Toutes les fermes"; a non-empty id never gives ""; any other result is the name of a farm with that id |
| MobileLayout.FermeNameFound | client/components/MobileLayout.tsx:63-65 | the first farm with the id decides: its name, or the id when the name is empty |
| MobileLayout.FermeNameUnknown | client/components/MobileLayout.tsx:63-65 | an id that no farm has is shown as it is |
| MobileLayout.FarmSubtitle | client/components/MobileLayout.tsx:308-312 | the farm line appears exactly when the user has a farm id, and it is then a non-empty farm name |
| MobileLayout.StockNotifications | client/components/MobileLayout.tsx:69-95 | without a user the count stays 0; the count never exceeds the number of alert and transfer records |
| MobileLayout.StockCountFormula | client/components/MobileLayout.tsx:75-95 | the count is the number of unacknowledged alerts in scope, plus the number of transfers to the user's farm that are pending or in transit |
| MobileLayout.AllFarmsAccessAddsOtherFarmAlerts | client/components/MobileLayout.tsx:75-79 | all-farms access adds exactly the unacknowledged alerts of other farms; the transfer scope does not widen |
| MobileLayout.Navigation | client/components/MobileLayout.tsx:105-155 | the navigation list always has seven entries |
| MobileLayout.NavigationShape | client/components/MobileLayout.tsx:105-155 | hrefs and names are pairwise distinct and names non-empty; only Stock carries the notification count |
| MobileLayout.NamesAppend | client/components/MobileLayout.tsx:224-226 | the names of a concatenation are the concatenated names |
| MobileLayout.NamesOfVisibleCons | client/components/MobileLayout.tsx:224-226 | a visible entry's name comes before the visible names of the rest; a hidden entry adds nothing |
| MobileLayout.NamesOfVisibleSeven | client/components/MobileLayout.tsx:224-226 | the visible names of seven entries are the shown ones, in order |
| MobileLayout.VisibleInDeclarationOrder | client/components/MobileLayout.tsx:105-155 | the visible names are exactly the entries whose show predicate holds for the role flags, in declaration order |
| MobileLayout.AlwaysVisible | client/components/MobileLayout.tsx:105-147 | "Tableau de bord" and "Statistiques" are always visible |
| MobileLayout.AdministrationVisibility | client/components/MobileLayout.tsx:152 | "Administration" is visible if and only if the user is super-admin |
| MobileLayout.OuvriersVisibility | client/components/MobileLayout.tsx:124 | "Ouvriers" is visible if and only if the user is not a plain user |
| MobileLayout.StockVisibility | client/components/MobileLayout.tsx:138 | "Stock" is visible if and only if one of the three role flags is set |
| MobileLayout.Visible | client/components/MobileLayout.tsx:224-225 | the visible menu is no longer than the list; every visible entry is a shown entry of the list, and every shown entry is visible |
| MobileLayout.IsActive | client/components/MobileLayout.tsx:227 | an entry is active only on a path exactly as long as its route |
| MobileLayout.NoPrefixActivation | client/components/MobileLayout.tsx:227 | no prefix matching: a path that extends a route does not activate that entry |
| MobileLayout.AtMostOneActive | client/components/MobileLayout.tsx:224-227 | with exact path equality, at most one visible entry is active |
| MobileLayout.BadgeCount | client/components/MobileLayout.tsx:249-255 | the visible menu draws exactly one badge when the stock count is positive and Stock is visible, and none otherwise |
| MobileLayout.BadgeOnlyOnStock | client/components/MobileLayout.tsx:134-140 | only the Stock entry can show a badge (rendered when `notificationCount > 0`), and some visible entry shows one exactly when the stock count is positive and Stock is visible |
| MobileLayout.GetCurrentPageName | client/components/MobileLayout.tsx:174-177 | the title is never empty; a title other than "Page" is the name of an entry whose route is the path; with no such entry it is "Page" |
| MobileLayout.PageTitle | client/components/MobileLayout.tsx:174-177 | on the navigation list, every entry whose href equals the path gives its name as the title; "Page" comes exactly when none matches |
| MobileLayout.ActiveEntryTitle | client/components/MobileLayout.tsx:174-177 | the title is the name of the active visible entry |
| MobileLayout.HiddenEntryTitle | client/components/MobileLayout.tsx:148-153 | the title searches the unfiltered list: a non-super-admin at "/admin" gets the title "Administration" of an entry not shown |
| SupervisorManagement.ErrorText | client/components/SupervisorManagement.tsx:100-102 | an error text is the prefix followed by the error's message, or by "Erreur inconnue" when it has none |
| SupervisorManagement.CompanyOrEmpty | client/components/SupervisorManagement.tsx:112 | the form's company is empty exactly when the record has none or an empty one, and otherwise is the record's company |
| SupervisorManagement.IsComplete | client/components/SupervisorManagement.tsx:75 | a missing name or phone fails validation |
| SupervisorManagement.ValidationIgnoresOptionalFields | client/components/SupervisorManagement.tsx:75 | the empty form never passes validation; company and status play no part in it |
| SupervisorManagement.Reset | client/components/SupervisorManagement.tsx:55-65 | the form, the record being edited and both texts return to their initial values; the dialog flag, `loading` and the calls are kept |
| SupervisorManagement.ResetIdempotent | client/components/SupervisorManagement.tsx:55-65 | resetting twice is resetting once |
| SupervisorManagement.Submitted | client/components/SupervisorManagement.tsx:67-106 | a submit ends not loading and with no message; it only appends to the calls, one call exactly when the form is complete; the error is empty exactly when the form is complete and the call succeeds |
| SupervisorManagement.Edited | client/components/SupervisorManagement.tsx:108-117 | the form shows the record (company or ""), the record is being edited, the dialog is open, the rest is kept; the form validates exactly when the record has a name and a phone |
| SupervisorManagement.Deleted | client/components/SupervisorManagement.tsx:119-134 | declined: nothing changes; confirmed: one delete of that id and not loading; the form, record and dialog are always kept |
| SupervisorManagement.OpenChanged | client/components/SupervisorManagement.tsx:154-157 | the flag follows the dialog; closing empties the form, the record and both texts, opening keeps them; `loading` and the calls are kept |
| SupervisorManagement.Cancelled | client/components/SupervisorManagement.tsx:244 | Cancel closes the dialog and keeps every other part of the state |
| SupervisorManagement.Typed | client/components/SupervisorManagement.tsx:194-231 | the edited field takes the new value, the other fields keep theirs, and nothing outside the form changes |
| SupervisorManagement.SubmitRequest | client/components/SupervisorManagement.tsx:80-96 | a save updates the record being edited by id, else creates; it carries the form and the `updatedAt` reading; only creation adds `createdAt`, from its own clock reading |
| SupervisorManagement.SubmitInvalidMakesNoCall | client/components/SupervisorManagement.tsx:67-78 | a missing name or phone makes no call, sets the validation error and ends not loading; form, record and dialog are unchanged |
| SupervisorManagement.SubmitValidMakesOneCall | client/components/SupervisorManagement.tsx:80-96 | a valid submit makes exactly one call, whatever its outcome |
| SupervisorManagement.SubmitSuccessResets | client/components/SupervisorManagement.tsx:55-65 | after a successful save the state is the initial state plus one call; the success text is cleared again |
| SupervisorManagement.SubmitFailureKeepsForm | client/components/SupervisorManagement.tsx:100-105 | a failed save keeps the form, the record and the dialog, shows the prefixed error, and ends not loading |
| SupervisorManagement.EditThenSubmit | client/components/SupervisorManagement.tsx:108-117 | editing a record and saving it updates that id with the record's fields (company normalised to "") and returns to the initial state |
| SupervisorManagement.DeactivateThroughEdit | client/components/SupervisorManagement.tsx:231 | edit, switch status to "inactif", save: exactly one update of that record with the new status, and the dialog closes |
| SupervisorManagement.DeclinedDeleteChangesNothing | client/components/SupervisorManagement.tsx:119-122 | a declined confirmation changes nothing, the call log included |
| SupervisorManagement.ConfirmedDeleteMakesOneCall | client/components/SupervisorManagement.tsx:124-134 | a confirmed delete makes exactly one delete of that id, leaves the form and dialog alone, and reports success or the prefixed error |
| SupervisorManagement.CloseResetsCancelKeeps | client/components/SupervisorManagement.tsx:154-157 | closing through the dialog resets the form; Cancel closes but keeps the form, the record and the texts |
| SupervisorManagement.AddAfterCancelStillUpdates | client/components/SupervisorManagement.tsx:244 | after edit and Cancel, reopening through the add trigger stays in edit mode, and saving updates the old record |
| SupervisorManagement.GetStatusBadge | client/components/SupervisorManagement.tsx:138-144 | "Actif" in green exactly for "actif"; every other status shows "Inactif" in red |
| SupervisorManagement.CompanyCell | client/components/SupervisorManagement.tsx:282 | the company cell is never empty; it shows the company when present, else "-" |
| SupervisorManagement.DialogTitle | client/components/SupervisorManagement.tsx:167 | the dialog is titled for editing exactly when a record is being edited |
| SupervisorManagement.GetSubmitButton | client/components/SupervisorManagement.tsx:247-248 | the submit button is disabled exactly while loading; otherwise it reads "Modifier" in edit mode and "Ajouter" otherwise |
| SupervisorManagement.StepCalls | client/components/SupervisorManagement.tsx:67-134 | one handler appends at most one call: a delete exactly for a confirmed delete, a save only for a submit |
| SupervisorManagement.RunSettles | client/components/SupervisorManagement.tsx:103-105 | after any sequence of user actions no handler is left loading |
| SupervisorManagement.RunCalls | client/components/SupervisorManagement.tsx:67-134 | over any sequence of actions the log only grows; one delete per confirmed delete, at most one save per submit |
| SupervisorManagement.Backend.constructor | client/components/SupervisorManagement.tsx:38 | the collaborator starts with no calls |
| SupervisorManagement.Backend.Issue | client/components/SupervisorManagement.tsx:38 | each call issued through `addDocument`, `updateDocument` or `deleteDocument` is appended to the log, and nothing else changes |
| SupervisorManagement.SupervisorPanel.constructor | client/components/SupervisorManagement.tsx:39-50 | the component starts with the empty form, nothing edited, the dialog closed, not loading, no texts |
| SupervisorManagement.SupervisorPanel.ResetForm | client/components/SupervisorManagement.tsx:55-65 | `resetForm` empties the form, the record being edited and both texts |
| SupervisorManagement.SupervisorPanel.HandleSubmit | client/components/SupervisorManagement.tsx:67-106 | the in-place submit handler ends in the state `Submitted` describes, with its call appended to the backend log |
| SupervisorManagement.SupervisorPanel.HandleEdit | client/components/SupervisorManagement.tsx:108-117 | the edit handler copies the record into the form (company or ""), remembers it and opens the dialog |
| SupervisorManagement.SupervisorPanel.HandleDelete | client/components/SupervisorManagement.tsx:119-134 | the delete handler ends in the state `Deleted` describes for the confirmation answer and outcome |
| SupervisorManagement.SupervisorPanel.OnOpenChange | client/components/SupervisorManagement.tsx:154-157 | the dialog's open-change handler sets the flag and resets the form on close |
| SupervisorManagement.SupervisorPanel.OnCancel | client/components/SupervisorManagement.tsx:244 | Cancel only clears the dialog flag |
| SupervisorManagement.SupervisorPanel.OnInput | client/components/SupervisorManagement.tsx:194-231 | each input changes its own form field and nothing else |

## Left out

- The Firestore subscription lifecycle of the stock effect (`onSnapshot`, the nested transfer listener, unsubscribe order, MobileLayout.tsx:69-103) is asynchronous and listener-driven. Only the count it publishes is modelled. Line 89 overwrites `unsubscribeTransfers` on each alert snapshot, so no "never stale" property is claimed.
- `useAuth`, `useFirestore`, the router and the Firestore queries are code the model cannot see. Their results are parameters: the user, the role flags, the farm list, the path and the documents. The alert query's server-side filter is modelled as a predicate on the alert records.
- Rendering is left out: JSX layout, CSS classes, icons, the Sheet, Dialog and DropdownMenu widgets, the notification bell, and the empty-list message of the supervisor table.
- The mobile-menu open flag (MobileLayout.tsx:56) and the logout and settings navigation are trivial UI state and router calls.
- `window.confirm`, `new Date().toISOString()`, `console.error` and promise awaiting are replaced by a boolean answer, one timestamp string per clock reading and an `Outcome` value. Each handler is one atomic step, so interleavings of two handlers while a call is awaited are not modelled.
- Strings are sequences of Unicode characters, not UTF-16 code units. For a word that starts with a character outside the Basic Multilingual Plane, `word[0]` (MobileLayout.tsx:160) yields half a surrogate pair, while `FirstChars` yields the whole character.
- Strings.ToUpper: only ASCII letters are upper-cased. The Unicode case mapping of `toUpperCase` is not modelled.
- The supervisor list itself (`allSupervisors || []`) belongs to the subscription. No handler changes it, so it is not part of the state.
- capacitor.config.ts is static configuration and not part of this model.
