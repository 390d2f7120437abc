/**
 * The server actions behind the sign-up, profile, onboarding and location
 * forms: how a submitted form is decoded, which handler runs, what is
 * written to the `majstori` table and which redirect ends the request.
 * Every backend call is an input (its error message, or whether a record
 * exists); the writes are returned as values in the order they are issued.
 */
module Actions {
  import opened Wrappers
  import opened Strings
  import opened Lists

  // ----------------------------------------------------------- form values

  /** One form field as `formData.entries()` yields it (text fields only). */
  datatype FormEntry = FormEntry(key: string, value: string)

  type Form = seq<FormEntry>

  /** `formData.get(key)?.toString()`: the first value under the key, if any. */
  function FormGet(form: Form, key: string): (r: Option<string>)
    ensures r.Some? <==> exists k :: 0 <= k < |form| && form[k].key == key
    ensures r.Some? ==>
      exists k :: 0 <= k < |form| && form[k] == FormEntry(key, r.value)
                  && forall j :: 0 <= j < k ==> form[j].key != key
  {
    if form == [] then None
    else if form[0].key == key then Some(form[0].value)
    else
      var r := FormGet(form[1..], key);
      assert forall k :: 0 < k < |form| ==> form[k] == form[1..][k - 1];
      r
  }

  /** `formData.getAll(key)`: every value under the key, in form order. */
  function FormGetAll(form: Form, key: string): seq<string> {
    if form == [] then []
    else (if form[0].key == key then [form[0].value] else []) + FormGetAll(form[1..], key)
  }

  /** JavaScript truthiness of an optional string: present and not empty. */
  predicate Truthy(s: Option<string>) {
    s.Some? && s.value != ""
  }

  /** A column value as the actions write it. */
  datatype Value =
    | Str(s: string)
    | Undefined
    | Bool(b: bool)
    | StrList(items: seq<string>)
    | ParsedFloat(text: string)   // `parseFloat(text)`; the number itself is not modelled
    | ParsedInt(text: string)     // `parseInt(text)`
    | Num(n: real)

  /** `formData.get(key)?.toString()` as written into a record: `undefined` when absent. */
  function OptStr(s: Option<string>): Value {
    if s.Some? then Str(s.value) else Undefined
  }

  /** The record handed to an insert or an update, its keys in insertion order. */
  type Record = seq<(string, Value)>

  /** A write to the `majstori` table. */
  datatype Write = Insert(record: Record) | Update(record: Record, userId: string)

  /** How an action ends: an encoded redirect, a plain redirect, a throw, or a returned success. */
  datatype Outcome =
    | EncodedRedirect(kind: string, path: string, message: string)
    | Redirect(path: string)
    | Thrown(message: string)
    | Succeeded

  /** The writes an action issued, in order, and how it ended. */
  datatype Effect = Effect(writes: seq<Write>, outcome: Outcome)

  // --------------------------------------------------------------- sign up

  const CredentialsRequired := "Email and password are required"
  const SignUpThanks := "Thanks for signing up! Please check your email for a verification link."
  /** Appended to the request's origin to form the e-mail confirmation link. */
  const ConfirmationPath := "/auth/callback?redirect_to=/onboarding"

  /**
   * `signUpAction`. `signUp` is the auth call: given the email, the password
   * and the confirmation link, it yields its error message or none.
   */
  function SignUpAction(email: Option<string>, password: Option<string>, origin: string,
                        signUp: (string, string, string) -> Option<string>): Outcome
  {
    if !Truthy(email) || !Truthy(password) then
      EncodedRedirect("error", "/sign-up", CredentialsRequired)
    else
      match signUp(email.value, password.value, origin + ConfirmationPath)
      case Some(message) => EncodedRedirect("error", "/sign-up", message)
      case None => EncodedRedirect("success", "/sign-up", SignUpThanks)
  }

  /**
   * A missing or empty email or password is rejected before the auth call:
   * the outcome is the same error whatever the auth call would do. With
   * both present, the outcome is an error exactly when the auth call fails.
   */
  lemma SignUpGuard(email: Option<string>, password: Option<string>, origin: string,
                    signUp: (string, string, string) -> Option<string>,
                    other: (string, string, string) -> Option<string>)
    ensures !Truthy(email) || !Truthy(password) ==>
      && SignUpAction(email, password, origin, signUp) == SignUpAction(email, password, origin, other)
      && SignUpAction(email, password, origin, signUp) == EncodedRedirect("error", "/sign-up", CredentialsRequired)
    ensures Truthy(email) && Truthy(password) ==>
      var called := signUp(email.value, password.value, origin + ConfirmationPath);
      (SignUpAction(email, password, origin, signUp).kind == "error" <==> called.Some?)
  {
    if Truthy(email) && Truthy(password) {
      var called := signUp(email.value, password.value, origin + ConfirmationPath);
      if called.None? {
        assert SignUpAction(email, password, origin, signUp).kind == "success";
        assert "success"[0] != "error"[0];
      }
    }
  }

  // ------------------------------------------------------------- dispatch

  /** The handler `updateProfileAction` chooses. */
  datatype Handler = BasicProfile | Contacts | Categories | ServiceDetails | Preferences(kind: string) | UnknownAction

  /** `formData.get("action_type")?.toString() || 'profile'` */
  function ActionType(form: Form): string {
    var t := FormGet(form, "action_type");
    if Truthy(t) then t.value else "profile"
  }

  /** The `switch` on the action type. */
  function Dispatch(actionType: string): Handler {
    match actionType
    case "profile" => BasicProfile
    case "contacts" => Contacts
    case "categories" => Categories
    case "service_details" => ServiceDetails
    case "notifications" => Preferences(actionType)
    case "display" => Preferences(actionType)
    case _ => UnknownAction
  }

  /**
   * A missing or empty action type selects the basic profile handler;
   * "notifications" and "display" share the preferences handler; any other
   * value is unknown.
   */
  lemma DispatchCases(form: Form)
    ensures !Truthy(FormGet(form, "action_type")) ==> Dispatch(ActionType(form)) == BasicProfile
    ensures forall t :: Dispatch(t).Preferences? <==> t == "notifications" || t == "display"
    ensures forall t :: Dispatch(t) == UnknownAction <==>
      t !in {"profile", "contacts", "categories", "service_details", "notifications", "display"}
  {
  }

  // ------------------------------------------------------------- contacts

  /** A contact field: its key starts with "contact_" and its value is not empty. */
  predicate IsContact(e: FormEntry) {
    StartsWith(e.key, "contact_") && e.value != ""
  }

  /** The contact values, in form order. */
  function ContactsOf(form: Form): seq<string> {
    if form == [] then []
    else
      var last := form[|form| - 1];
      ContactsOf(form[..|form| - 1]) + if IsContact(last) then [last.value] else []
  }

  /** The loop of `updateContacts`: push the value of each contact field. */
  method CollectContacts(form: Form) returns (contacts: seq<string>)
    ensures contacts == ContactsOf(form)
  {
    contacts := [];
    var i := 0;
    while i < |form|
      invariant 0 <= i <= |form|
      invariant contacts == ContactsOf(form[..i])
    {
      assert form[..i + 1][..i] == form[..i];
      var e := form[i];
      if StartsWith(e.key, "contact_") && e.value != "" {
        contacts := contacts + [e.value];
      }
      i := i + 1;
    }
    assert form[..i] == form;
  }

  /** Contacts of two parts of a form, one after the other. */
  lemma {:induction false} ContactsAppend(a: Form, b: Form)
    ensures ContactsOf(a + b) == ContactsOf(a) + ContactsOf(b)
  {
    if b != [] {
      var b' := b[..|b| - 1];
      ContactsAppend(a, b');
      assert (a + b)[..|a + b| - 1] == a + b';
    } else {
      assert a + b == a;
    }
  }

  /** The contacts are exactly the contact fields' values; none is empty. */
  lemma {:induction false} ContactsMember(form: Form, v: string)
    ensures v in ContactsOf(form) <==> exists k :: 0 <= k < |form| && IsContact(form[k]) && form[k].value == v
    ensures v in ContactsOf(form) ==> v != ""
  {
    if form != [] {
      var init := form[..|form| - 1];
      ContactsMember(init, v);
      if v in ContactsOf(init) {
        var k :| 0 <= k < |init| && IsContact(init[k]) && init[k].value == v;
        assert form[k] == init[k];
      }
      if exists k :: 0 <= k < |form| && IsContact(form[k]) && form[k].value == v {
        var k :| 0 <= k < |form| && IsContact(form[k]) && form[k].value == v;
        if k < |init| {
          assert init[k] == form[k];
        }
      }
    }
  }

  // ----------------------------------------------------------- categories

  /** `updateCategories`: the checked values in form order, then the custom category when not empty. */
  function CategoriesOf(form: Form): seq<string> {
    var custom := FormGet(form, "custom_category");
    FormGetAll(form, "categories") + if Truthy(custom) then [custom.value] else []
  }

  /** The checkbox values come first, unchanged; one more element, the custom category, exactly when it is not empty. */
  lemma CategoriesShape(form: Form)
    ensures var cs, boxes, custom := CategoriesOf(form), FormGetAll(form, "categories"), FormGet(form, "custom_category");
      && cs[..|boxes|] == boxes
      && (|cs| == |boxes| + 1 <==> Truthy(custom))
      && (Truthy(custom) ==> cs[|boxes|] == custom.value)
      && (!Truthy(custom) ==> cs == boxes)
  {
  }

  // ------------------------------------------------------ service details

  /** `formData.get("wait_time_days")?.toString() || "1"`, the text handed to `parseInt`. */
  function WaitTimeText(form: Form): (r: string)
    ensures r != ""
  {
    var w := FormGet(form, "wait_time_days");
    if Truthy(w) then w.value else "1"
  }

  predicate NonEmpty(l: string) {
    l != ""
  }

  /** `s.split(',').map(l => l.trim()).filter(l => l)` */
  function ParseLanguages(s: string): seq<string> {
    Filter(Map(SplitOn(s, ','), Trim), NonEmpty)
  }

  /** Trimming cuts characters off the ends only, so it adds none. */
  lemma TrimKeepsOut(s: string, c: char)
    requires c !in s
    ensures c !in Trim(s)
  {
    var i := SkipSpaces(s, 0);
    assert Trim(s) == s[i..i + |Trim(s)|];
  }

  /** No language is empty, padded with white space or holds a comma. */
  lemma ParseLanguagesClean(s: string)
    ensures var r := ParseLanguages(s);
      forall k :: 0 <= k < |r| ==> r[k] != "" && Trimmed(r[k]) && ',' !in r[k]
  {
    var parts := SplitOn(s, ',');
    var pieces := Map(parts, Trim);
    forall k | 0 <= k < |pieces| ensures Trimmed(pieces[k]) && ',' !in pieces[k] {
      TrimKeepsOut(parts[k], ',');
    }
    var r := ParseLanguages(s);
    forall k | 0 <= k < |r| ensures r[k] != "" && Trimmed(r[k]) && ',' !in r[k] {
      FilterMember(pieces, NonEmpty, r[k]);
    }
  }

  /** The languages as written: `undefined` when the field is absent. */
  function LanguagesValue(form: Form): Value {
    var l := FormGet(form, "languages");
    if l.Some? then StrList(ParseLanguages(l.value)) else Undefined
  }

  /** Trimming strings already trimmed changes none of them. */
  lemma TrimAll(names: seq<string>)
    requires forall k :: 0 <= k < |names| ==> Trimmed(names[k])
    ensures Map(names, Trim) == names
  {
    forall k | 0 <= k < |names| ensures Trim(names[k]) == names[k] {
      TrimOfTrimmed(names[k]);
    }
  }

  /** A list of clean names written with commas reads back unchanged: the parse keeps the order and drops nothing else. */
  lemma ParseLanguagesJoin(names: seq<string>)
    requires forall k :: 0 <= k < |names| ==> names[k] != "" && Trimmed(names[k]) && ',' !in names[k]
    ensures ParseLanguages(Join(names, [','])) == names
  {
    if names == [] {
      ParseLanguagesEmpty();
    } else {
      SplitOnJoin(names, ',');
      TrimAll(names);
      FilterAll(names, NonEmpty);
    }
  }

  /** The empty text has no languages: its single empty piece is dropped. */
  lemma ParseLanguagesEmpty()
    ensures ParseLanguages([]) == []
  {
    assert SplitOn([], ',') == [[]];
    assert Trim([]) == [];
    assert Map([[]], Trim) == [[]];
    assert Filter([[]], NonEmpty) == [];
  }

  // ------------------------------------------------ optional coordinate keys

  /**
   * The keys `updateBasicProfile` and `onboardingAction` add only when their
   * form strings are not empty: latitude and longitude through `parseFloat`,
   * the radius through `parseInt`.
   */
  function CoordinateFields(form: Form): Record {
    var lat, lng, radius := FormGet(form, "latitude"), FormGet(form, "longitude"), FormGet(form, "service_radius");
    (if Truthy(lat) then [("latitude", ParsedFloat(lat.value))] else [])
    + (if Truthy(lng) then [("longitude", ParsedFloat(lng.value))] else [])
    + (if Truthy(radius) then [("service_radius", ParsedInt(radius.value))] else [])
  }

  /** The three conditional assignments onto the record being built. */
  method AddCoordinates(record: Record, form: Form) returns (r: Record)
    ensures r == record + CoordinateFields(form)
  {
    r := record;
    var lat := FormGet(form, "latitude");
    if lat.Some? && lat.value != "" {
      r := r + [("latitude", ParsedFloat(lat.value))];
    }
    var lng := FormGet(form, "longitude");
    if lng.Some? && lng.value != "" {
      r := r + [("longitude", ParsedFloat(lng.value))];
    }
    var radius := FormGet(form, "service_radius");
    if radius.Some? && radius.value != "" {
      r := r + [("service_radius", ParsedInt(radius.value))];
    }
  }

  /** The value a record holds under a key (the first, should there be two). */
  function Lookup(r: Record, key: string): Option<Value> {
    if r == [] then None
    else if r[0].0 == key then Some(r[0].1)
    else Lookup(r[1..], key)
  }

  lemma {:induction false} LookupAppend(a: Record, b: Record, key: string)
    ensures Lookup(a + b, key) == if Lookup(a, key).Some? then Lookup(a, key) else Lookup(b, key)
  {
    if a != [] {
      assert (a + b)[1..] == a[1..] + b;
      LookupAppend(a[1..], b, key);
    } else {
      assert a + b == b;
    }
  }

  /** Each coordinate key is present exactly when its form string is not empty, and then holds that string parsed. */
  lemma CoordinateKeys(form: Form)
    ensures var lat := FormGet(form, "latitude");
      Lookup(CoordinateFields(form), "latitude") == if Truthy(lat) then Some(ParsedFloat(lat.value)) else None
    ensures var lng := FormGet(form, "longitude");
      Lookup(CoordinateFields(form), "longitude") == if Truthy(lng) then Some(ParsedFloat(lng.value)) else None
    ensures var radius := FormGet(form, "service_radius");
      Lookup(CoordinateFields(form), "service_radius") == if Truthy(radius) then Some(ParsedInt(radius.value)) else None
  {
    var lat, lng, radius := FormGet(form, "latitude"), FormGet(form, "longitude"), FormGet(form, "service_radius");
    var a := if Truthy(lat) then [("latitude", ParsedFloat(lat.value))] else [];
    var b := if Truthy(lng) then [("longitude", ParsedFloat(lng.value))] else [];
    var d := if Truthy(radius) then [("service_radius", ParsedInt(radius.value))] else [];
    assert CoordinateFields(form) == a + (b + d);
    assert "latitude"[1] != "longitude"[1] && "latitude"[0] != "service_radius"[0] && "longitude"[0] != "service_radius"[0];
    LookupAppend(a, b + d, "latitude");
    LookupAppend(a, b + d, "longitude");
    LookupAppend(a, b + d, "service_radius");
    LookupAppend(b, d, "latitude");
    LookupAppend(b, d, "longitude");
    LookupAppend(b, d, "service_radius");
  }

  // -------------------------------------------------------- profile update

  /** The record `updateBasicProfile` writes. */
  function BasicProfileRecord(form: Form): Record {
    [ ("name", OptStr(FormGet(form, "name"))),
      ("location_name", OptStr(FormGet(form, "location_name"))),
      ("bio", OptStr(FormGet(form, "bio"))),
      ("emergency_available", Bool(FormGet(form, "emergency_available") == Some("on"))),
      ("weekend_evening", Bool(FormGet(form, "weekend_evening") == Some("on"))) ]
    + CoordinateFields(form)
  }

  /** An update's redirect: its error, or the handler's success message. */
  function UpdateOutcome(error: Option<string>, success: string): Outcome {
    if error.Some? then EncodedRedirect("error", "/protected", error.value)
    else EncodedRedirect("success", "/protected", success)
  }

  /** Whether the handler writes: the preferences and unknown handlers do not. */
  predicate Writes(h: Handler) {
    h.BasicProfile? || h.Contacts? || h.Categories? || h.ServiceDetails?
  }

  /** The record a writing handler sends to the update; the others send none. */
  function HandlerRecord(h: Handler, form: Form): Record {
    match h
    case BasicProfile => BasicProfileRecord(form)
    case Contacts => [("contacts", StrList(ContactsOf(form)))]
    case Categories => [("categories", StrList(CategoriesOf(form)))]
    case ServiceDetails => [("wait_time_days", ParsedInt(WaitTimeText(form))), ("languages", LanguagesValue(form))]
    case _ => []
  }

  /** A writing handler's success message. */
  function SuccessMessage(h: Handler): string
    requires Writes(h)
  {
    match h
    case BasicProfile => "Profile updated successfully"
    case Contacts => "Contact information updated successfully"
    case Categories => "Service categories updated successfully"
    case ServiceDetails => "Service details updated successfully"
  }

  const PreferencesNoted := "Preferences section noted. No direct schema columns for these generic preferences."

  /** What the chosen handler writes and how it ends; `record` is what it sends, `error` the update's result. */
  function RunHandler(h: Handler, record: Record, userId: string, error: Option<string>): Effect {
    if h.UnknownAction? then
      Effect([], EncodedRedirect("error", "/protected", "Unknown action type"))
    else if h.Preferences? then
      Effect([], EncodedRedirect("success", "/protected", PreferencesNoted))
    else
      Effect([Update(record, userId)], UpdateOutcome(error, SuccessMessage(h)))
  }

  const LoginRequiredProfile := "You must be logged in to update your profile"

  /**
   * `updateProfileAction` once the handler is chosen. `user` is the
   * signed-in user's id; `existing` whether a record exists for it;
   * `createError` and `updateError` the results of the insert and of the
   * handler's update.
   */
  function ProfileEffect(user: Option<string>, h: Handler, record: Record, existing: bool,
                         createError: Option<string>, updateError: Option<string>): Effect
  {
    if user.None? then
      Effect([], EncodedRedirect("error", "/protected", LoginRequiredProfile))
    else
      var created := if existing then [] else [Insert([("user_id", Str(user.value))])];
      if !existing && createError.Some? then
        Effect(created, EncodedRedirect("error", "/protected", createError.value))
      else
        var e := RunHandler(h, record, user.value, updateError);
        Effect(created + e.writes, e.outcome)
  }

  /** `updateProfileAction`: the handler is the one the form's action type selects. */
  function UpdateProfileAction(user: Option<string>, form: Form, existing: bool,
                               createError: Option<string>, updateError: Option<string>): Effect
  {
    var h := Dispatch(ActionType(form));
    ProfileEffect(user, h, HandlerRecord(h, form), existing, createError, updateError)
  }

  /** What a handler writes: at most one update, keyed by the given user; the unknown handler writes nothing. */
  lemma HandlerWrites(h: Handler, record: Record, userId: string, error: Option<string>)
    ensures var e := RunHandler(h, record, userId, error);
      && |e.writes| <= 1
      && (forall w :: w in e.writes ==> w.Update? && w.userId == userId)
      && (h == UnknownAction ==> e.writes == [])
  {
  }

  /** The creation comes first, and a failed creation ends the action. */
  lemma ProfileEffectCreation(user: Option<string>, h: Handler, record: Record, existing: bool,
                              createError: Option<string>, updateError: Option<string>)
    ensures var e := ProfileEffect(user, h, record, existing, createError, updateError);
      && (user.None? ==> e.writes == [])
      && (user.Some? && !existing ==> |e.writes| >= 1 && e.writes[0] == Insert([("user_id", Str(user.value))]))
      && (user.Some? && !existing && createError.Some? ==> e.outcome.kind == "error" && |e.writes| == 1)
  {
  }

  /** After the creation, the writes are the handler's: at most one update, keyed by the user. */
  lemma ProfileEffectUpdates(user: Option<string>, h: Handler, record: Record, existing: bool,
                             createError: Option<string>, updateError: Option<string>)
    ensures var e := ProfileEffect(user, h, record, existing, createError, updateError);
      && (user.Some? ==> forall w :: w in e.writes ==>
            w == Insert([("user_id", Str(user.value))]) || (w.Update? && w.userId == user.value))
      && (existing ==> forall w :: w in e.writes ==> w.Update?)
      && |e.writes| <= 2
      && (h == UnknownAction ==> forall w :: w in e.writes ==> w.Insert?)
  {
    if user.Some? && (existing || createError.None?) {
      var r := RunHandler(h, record, user.value, updateError);
      HandlerWrites(h, record, user.value, updateError);
      var created := if existing then [] else [Insert([("user_id", Str(user.value))])];
      assert ProfileEffect(user, h, record, existing, createError, updateError).writes == created + r.writes;
    }
  }

  /**
   * Without a user nothing is written; a missing record is created first,
   * holding only the user id; at most one update follows, always keyed by
   * that user; an unknown action type writes nothing beyond the creation,
   * and a failed creation stops the action with its error.
   */
  lemma UpdateProfileWrites(user: Option<string>, form: Form, existing: bool,
                            createError: Option<string>, updateError: Option<string>)
    ensures var e := UpdateProfileAction(user, form, existing, createError, updateError);
      && (user.None? ==> e.writes == [])
      && (user.Some? && !existing ==> |e.writes| >= 1 && e.writes[0] == Insert([("user_id", Str(user.value))]))
      && (user.Some? ==> forall w :: w in e.writes ==>
            w == Insert([("user_id", Str(user.value))]) || (w.Update? && w.userId == user.value))
      && (existing ==> forall w :: w in e.writes ==> w.Update?)
      && |e.writes| <= 2
      && (Dispatch(ActionType(form)) == UnknownAction ==> forall w :: w in e.writes ==> w.Insert?)
      && (user.Some? && !existing && createError.Some? ==> e.outcome.kind == "error" && |e.writes| == 1)
  {
    var h := Dispatch(ActionType(form));
    ProfileEffectCreation(user, h, HandlerRecord(h, form), existing, createError, updateError);
    ProfileEffectUpdates(user, h, HandlerRecord(h, form), existing, createError, updateError);
  }

  // ------------------------------------------------------------ onboarding

  /** The record `onboardingAction` inserts; `now` is the creation time as an ISO string. */
  function OnboardingRecord(userId: string, form: Form, now: string): Record {
    var phone := FormGet(form, "phone");
    [ ("user_id", Str(userId)),
      ("name", OptStr(FormGet(form, "name"))),
      ("location_name", OptStr(FormGet(form, "location_name"))),
      ("categories", StrList(FormGetAll(form, "categories"))),
      ("contacts", StrList(if Truthy(phone) then [phone.value] else [])),
      ("created_at", Str(now)) ]
    + CoordinateFields(form)
  }

  const LoginRequiredOnboarding := "You must be logged in to complete the onboarding"
  const NameRequired := "Name is required to complete your profile"
  const CreateFailed := "Failed to create your profile: "

  /** `onboardingAction`; `insertError` is the insert's result. */
  function OnboardingAction(user: Option<string>, form: Form, now: string, insertError: Option<string>): Effect {
    if user.None? then
      Effect([], EncodedRedirect("error", "/sign-in", LoginRequiredOnboarding))
    else if !Truthy(FormGet(form, "name")) then
      Effect([], EncodedRedirect("error", "/onboarding", NameRequired))
    else
      var w := [Insert(OnboardingRecord(user.value, form, now))];
      if insertError.Some? then
        Effect(w, EncodedRedirect("error", "/onboarding", CreateFailed + insertError.value))
      else
        Effect(w, Redirect("/protected"))
  }

  /**
   * An empty name inserts nothing and sends the user back to onboarding;
   * otherwise one record is inserted whose contacts are the phone alone,
   * or none when the phone is empty.
   */
  lemma OnboardingCases(user: Option<string>, form: Form, now: string, insertError: Option<string>)
    ensures var e := OnboardingAction(user, form, now, insertError);
      && (user.Some? && !Truthy(FormGet(form, "name")) ==>
            e.writes == [] && e.outcome.EncodedRedirect? && e.outcome.path == "/onboarding")
      && (user.Some? && Truthy(FormGet(form, "name")) ==>
            |e.writes| == 1 && e.writes[0].Insert?
            && e.writes[0].record[4] == ("contacts", StrList(
                 if Truthy(FormGet(form, "phone")) then [FormGet(form, "phone").value] else []))
            && (e.outcome == Redirect("/protected") <==> insertError.None?))
  {
  }

  // --------------------------------------------------------- location save

  /** The four location columns `saveLocationAction` writes. */
  function LocationRecord(locationName: string, latitude: real, longitude: real, radius: real): Record {
    [("location_name", Str(locationName)), ("latitude", Num(latitude)), ("longitude", Num(longitude)),
     ("service_radius", Num(radius))]
  }

  /**
   * `saveLocationAction`. `user` is the signed-in user's id, `userId` the
   * id the caller names, `existing` whether that user has a record and
   * `error` the write's result.
   */
  function SaveLocationAction(user: Option<string>, userId: string, latitude: real, longitude: real,
                              locationName: string, radius: real, existing: bool, error: Option<string>): Effect
  {
    if user.None? || user.value != userId then
      Effect([], Thrown("Unauthorized"))
    else
      var fields := LocationRecord(locationName, latitude, longitude, radius);
      var w := if existing then Update(fields, userId)
               else Insert([("user_id", Str(userId)), ("name", Str("New User"))] + fields);
      Effect([w], if error.Some? then Thrown(error.value) else Succeeded)
  }

  /**
   * Only the signed-in user may save their own location; a new record gets
   * the placeholder name, an existing one has exactly the four location
   * columns rewritten; both write the same location values.
   */
  lemma SaveLocationCases(user: Option<string>, userId: string, latitude: real, longitude: real,
                          locationName: string, radius: real, existing: bool, error: Option<string>)
    ensures var e := SaveLocationAction(user, userId, latitude, longitude, locationName, radius, existing, error);
      var fields := LocationRecord(locationName, latitude, longitude, radius);
      && (user != Some(userId) <==> e == Effect([], Thrown("Unauthorized")))
      && (user == Some(userId) ==>
            && |e.writes| == 1
            && (existing ==> e.writes[0] == Update(fields, userId))
            && (!existing ==>
                  && e.writes[0].Insert?
                  && ("name", Str("New User")) in e.writes[0].record
                  && e.writes[0].record[|e.writes[0].record| - 4..] == fields)
            && (e.outcome == Succeeded <==> error.None?))
  {
  }
}
