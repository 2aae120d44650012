# scriim-app core, modelled in Dafny

scriim is a React Native emergency-alert client. This project models the part of
it that holds state and builds messages:

- the "Add Emergency Contact" form (`app/contacts/add.tsx`): the phone-number pattern
  `^\+?[0-9]{10,15}$` and the ordered checks of `handleAddContact`;
- the contact store (`store/useContactStore.ts`): the ordered contact list and the
  user's name, with `addContact`, `removeContact` and `setname`;
- the offline fallback channel (`services/offline.ts`): the `sms:` and `tel:` URLs
  handed to the operating system, and the boolean each call reports;
- the theme store and the theme table (`store/useThemeStore.ts`, `utils/theme.ts`);
- the location store (`store/useLocationStore.ts`): the `requestLocation` transitions.

Each module for the app follows one source file; `JsStrings`, `UriEncoding` and
`Wrappers` hold the JavaScript built-ins and `Option`. The stores are classes whose fields the
actions replace. Each action is proved equal to a pure transition function on
the store's state, and the properties are proved about those functions.
The form check and the URL builders are pure functions.

JavaScript strings are sequences of UTF-16 code units (`JsStrings.CodeUnit`), so a
lone surrogate can be represented. The model includes the string built-ins the
core relies on:

- `String.prototype.trim`, with the WhiteSpace and LineTerminator sets of ECMA-262;
- `Number.prototype.toString` for the integers a clock can return;
- `encodeURIComponent` as in section 18.2.6.5 of ECMA-262, 2015 edition.

`decodeURIComponent` (section 18.2.6.3) is included only as the inverse of
`encodeURIComponent`. The app does not call it; it is there to state that the
message survives the URL.

The platform calls are inputs rather than behaviour:

- `Date.now()` is the `now` parameter;
- `Platform.OS` is a `Platform` value;
- whether `Linking.openURL` throws is the `openFails` flag;
- the answers of the two `expo-location` calls are `PermissionResponse` and
  `PositionResponse` values, each of which may be an exception.

A contact's id is meant to identify it, but nothing checks that ids are unique:
the id is the clock reading in decimal. The model follows the code.
`UseContactStore.SameInstantRemovedTogether` shows two contacts added in the same
millisecond sharing an id and being removed together.

The iOS branch of `sendSMSDirectly` puts `&body=` straight after the number. This is
not the `?body=` query form of section 2.2 of RFC 5724, which the Android branch
uses. The model keeps each platform's string as written.
`Offline.SmsUrlPlatformsDiffer` states that this one code unit is the only difference.

## Model

| member | source | states |
|---|---|---|
| AddContactScreen.ValidatePhoneNumberIff | app/contacts/add.tsx:22-25 | the pattern test accepts a string iff it is an optional single `+` followed by 10 to 15 ASCII digits and nothing else |
| AddContactScreen.AcceptedPhoneIsTrimmed | app/contacts/add.tsx:38-46 | an accepted phone number is 10 to 16 code units long, holds no white space, and is unchanged by the `.trim()` applied before storing |
| AddContactScreen.CheckContactForm | app/contacts/add.tsx:27-47 | the checks run in order: name blank after trimming gives the name error whatever else; otherwise an empty email gives the email error; otherwise a phone not of the pattern's shape gives the phone error; otherwise the contact carries the trimmed name and email (no id) |
| AddContactScreen.BlankEmailStoredEmpty | app/contacts/add.tsx:33-45 | the email is checked untrimmed, so an email of white space alone is accepted and stored as the empty string |
| AddContactScreen.AlertMessageInjective | app/contacts/add.tsx:29-39 | the three error alerts have distinct texts, one per failed check |
| AddContactScreen.AlertFor | app/contacts/add.tsx:28-53 | a rejected form shows an "Error" alert with the failed check's text; an accepted one shows a "Success" alert whose text is the name as typed, untrimmed, followed by the fixed confirmation |
| AddContactScreen.HandleAddContact | app/contacts/add.tsx:27-53 | the handler adds exactly one contact (the checked, trimmed one) when all checks pass, leaves the list untouched otherwise, never changes the user's name, and shows the alert for its outcome |
| JsStrings.Trim | app/contacts/add.tsx:43-47 | trim returns the infix of its input that neither starts nor ends with white space; everything before and after it is white space |
| JsStrings.TrimEmptyIff | app/contacts/add.tsx:28-31 | `!name.trim()` holds exactly when the name is empty or all white space |
| JsStrings.TrimNoWhiteSpace | app/contacts/add.tsx:46 | trimming a string without white space leaves it unchanged |
| JsStrings.ParseDecimalDigits | store/useContactStore.ts:29 | reading the decimal numeral of a natural number gives back that number |
| JsStrings.DecimalDigitsInjective | store/useContactStore.ts:29 | distinct natural numbers have distinct numerals |
| JsStrings.NumberToString | store/useContactStore.ts:29 | the decimal string of an integer starts with `-` exactly for negative numbers, and the rest is a numeral without leading zeros that reads back as the magnitude |
| JsStrings.NumberToStringInjective | store/useContactStore.ts:29 | two integers have the same decimal string iff they are equal |
| UseContactStore.IdAt | store/useContactStore.ts:29 | the id given at time `now` is the decimal string of `now`: a `-` exactly when `now` is negative, then a numeral without leading zeros that reads back as its magnitude |
| UseContactStore.Stamped | store/useContactStore.ts:27-30 | the stored contact keeps the caller's name, phone and email and gets the clock-derived id |
| UseContactStore.Appended | store/useContactStore.ts:26-34 | adding puts one contact at the end: length grows by one and earlier contacts are unchanged and in order |
| UseContactStore.Without | store/useContactStore.ts:35-39 | removing an id keeps an in-order subsequence in which no contact has that id, and every contact without that id keeps its number of occurrences |
| UseContactStore.WithoutKeeps | store/useContactStore.ts:35-39 | a contact whose id differs, and so any contact without an id, is never removed |
| UseContactStore.WithoutAbsent | store/useContactStore.ts:37 | removing an id changes the list iff some contact has that id |
| UseContactStore.WithoutIdempotent | store/useContactStore.ts:35-39 | removing the same id twice is removing it once |
| UseContactStore.WithoutConcat | store/useContactStore.ts:37 | removal filters element by element, so it distributes over concatenation |
| UseContactStore.AddThenRemove | store/useContactStore.ts:26-39 | removing the id of a contact just added restores the previous list when no contact had that id before |
| UseContactStore.SameInstantRemovedTogether | store/useContactStore.ts:29-37 | two contacts added at the same instant share an id, and removing it removes both |
| UseContactStore.DistinctInstantsDistinctIds | store/useContactStore.ts:29 | contacts added at different instants get different ids, and at the same instant the same id |
| UseContactStore.ContactsStore.constructor | store/useContactStore.ts:24-25 | the store starts with no contacts and an empty name |
| UseContactStore.ContactsStore.AddContact | store/useContactStore.ts:26-34 | the list becomes the appended list; the name is unchanged |
| UseContactStore.ContactsStore.RemoveContact | store/useContactStore.ts:35-39 | the list becomes the filtered list; the name is unchanged |
| UseContactStore.ContactsStore.SetName | store/useContactStore.ts:40-42 | the name is replaced; the contacts are unchanged |
| UriEncoding.EncodeSucceedsIff | services/offline.ts:11 | `encodeURIComponent` throws exactly when the message holds an unpaired surrogate |
| UriEncoding.EncodeForm | services/offline.ts:11 | an encoded message consists of unescaped code units and `%XX` triples with upper-case hex digits |
| UriEncoding.EncodeHasNoDelimiters | services/offline.ts:11-16 | an encoded message holds none of `&`, `?`, `=`, `#`, so it cannot add fields to the URL |
| UriEncoding.EncodeLength | services/offline.ts:11 | encoding never shortens a message and keeps its length exactly when all code units are unescaped |
| UriEncoding.EncodeIdentityIff | services/offline.ts:11 | encoding leaves a message unchanged iff all its code units are in the unescaped set |
| UriEncoding.DecodeEncode | services/offline.ts:11 | decoding an encoded message gives back the message |
| Offline.SmsUrl | services/offline.ts:8-20 | a URL is opened iff the platform is Android or iOS and the message encodes without `URIError` |
| Offline.SmsUrlCarriesMessage | services/offline.ts:8-18 | the URL is `sms:`, the number verbatim and the platform's separator, followed directly by the text after the URL's last `=`, and that text decodes to the message |
| Offline.SmsUrlPlatformsDiffer | services/offline.ts:11-16 | the Android and iOS URLs have the same length and differ only in the `?` / `&` after the number |
| Offline.TelUrl | services/offline.ts:29 | the dial URL is `tel:` followed by the number as given, unencoded |
| Offline.Linking.OpenURL | services/offline.ts:12-30 | stands for each `Linking.openURL` call (lines 12, 17 and 30): opening records the URL handed to the platform and reports whether the platform threw |
| Offline.SendSMSDirectly | services/offline.ts:3-25 | reports `true` iff a URL was built and opening it did not throw; opens that URL exactly once when built and nothing otherwise (no exception escapes) |
| Offline.MakePhoneCall | services/offline.ts:27-36 | opens the `tel:` URL once and reports `true` iff opening it did not throw |
| Themes.GetTheme | utils/theme.ts:1-29 | the scheme is one of the two constant schemes; `primary` and `headerText` are shared; background and text are `#121212`/`#FFFFFF` in dark mode and `#FFFFFF`/`#000000` in light mode |
| Themes.GetThemeInjective | utils/theme.ts:27-29 | the two modes give different schemes, and the mode can be read back from the scheme |
| UseThemeStore.Toggled | store/useThemeStore.ts:20-24 | toggling flips the mode, takes the new mode's scheme, and keeps the loaded flag |
| UseThemeStore.WithDarkMode | store/useThemeStore.ts:25-29 | setting the mode takes that mode's scheme and keeps the loaded flag |
| UseThemeStore.Rehydrated | store/useThemeStore.ts:34-39 | rehydration sets the loaded flag only when a state is handed over and otherwise changes nothing |
| UseThemeStore.ConsistentAlways | store/useThemeStore.ts:17-29 | the scheme is the one for the current mode initially and after every action |
| UseThemeStore.ToggledTwice | store/useThemeStore.ts:20-24 | toggling twice restores mode and scheme |
| UseThemeStore.WithDarkModeIdempotent | store/useThemeStore.ts:20-29 | setting a mode twice is setting it once, and toggling is setting the opposite mode |
| UseThemeStore.ThemeStore.constructor | store/useThemeStore.ts:17-19 | the store starts in light mode with the light scheme, not loaded |
| UseThemeStore.ThemeStore.ToggleTheme | store/useThemeStore.ts:20-24 | the fields become the toggled state |
| UseThemeStore.ThemeStore.SetDarkMode | store/useThemeStore.ts:25-29 | the fields become the state for the given mode |
| UseThemeStore.ThemeStore.OnRehydrateStorage | store/useThemeStore.ts:34-39 | the fields become the rehydrated state |
| UseLocationStore.Started | store/useLocationStore.ts:16 | the first update sets loading and keeps position and message |
| UseLocationStore.Completed | store/useLocationStore.ts:17-31 | every completion path clears loading; the message is absent iff permission was granted and a position obtained, which then becomes the location; a denial gives the denial text; an exception gives the failure text; a failure keeps the previous location |
| UseLocationStore.CompletedMessages | store/useLocationStore.ts:15-32 | after a request, loading is off and the message is absent or one of the two fixed texts |
| UseLocationStore.FailureKeepsLocation | store/useLocationStore.ts:19-31 | a request that does not succeed keeps the previous location |
| UseLocationStore.LocationStore.constructor | store/useLocationStore.ts:12-14 | the store starts with no location, no message, not loading |
| UseLocationStore.LocationStore.RequestLocation | store/useLocationStore.ts:15-32 | observers see the loading state and then the completed state of this one run; the position is asked for only when permission is granted |

## Left out

- Panic dispatch: the connectivity check, the choice between the server and the SMS fallback, and the call to the authorities are in screens outside this model.
- `services/api.ts` is a network client and is not part of this model.
- Persistence: the `persist` middleware and AsyncStorage are library I/O. Only the loaded-flag update of the theme store's rehydration callback is modelled.
- `loadContacts` (store/useContactStore.ts:43-45) has an empty body. It is left out because it changes nothing.
- UI: JSX, router navigation and styles are not modelled. Of `Alert.alert`, only the title and text of each alert in app/contacts/add.tsx are modelled; the dialog itself and the navigation of its OK button are not.
- Asynchrony: `requestLocation`, `sendSMSDirectly` and `makePhoneCall` are modelled as sequential steps. `console.error` is not modelled.
- UseLocationStore.LocationStore.RequestLocation: describes one run that no other run overlaps. The app starts `requestLocation` on mount in two places (app/_layout.tsx:16, app/(tabs)/index.tsx:33); when two runs overlap, the first to finish clears `isLoading` while the other is still pending, and interleaved runs are not modelled.
- Platform calls are inputs, not behaviour: `Date.now()`, `Platform.OS`, `Linking.openURL`, `Location.requestForegroundPermissionsAsync` and `Location.getCurrentPositionAsync`.
- UseLocationStore.LocationObject: only latitude, longitude and timestamp are kept. The coordinates are `real`, so binary floating point is not modelled.
- JsStrings.NumberToString: covers only integers below 10^21 in magnitude. Every clock reading is in that range. Other Numbers are not modelled.
- JsStrings.Lit: maps a character outside the Basic Multilingual Plane to U+FFFD. Every literal in the model lies inside that plane.
- Theme colours and location messages are Dafny strings, not code-unit sequences. Nothing in the model inspects their code units.
