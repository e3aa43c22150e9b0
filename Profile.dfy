/** The Profile screen of screens/Profile.js: the form state, its validation,
    the notification checkboxes, and the load / save / discard / logout
    transitions over the device store. */
module Profile {
  import opened Text
  import opened Validation
  import opened Storage

  // ---------------------------------------------------------------- storage keys

  const UserNameKey := "UserName"
  const UserLastNameKey := "UserLastName"
  const UserEmailKey := "UserEmail"
  const UserPhoneNumberKey := "UserPhoneNumber"
  const UserImageKey := "UserImage"
  const UserCheckboxesKey := "UserCheckboxes"

  // ---------------------------------------------------------------- notification checkboxes

  datatype Checkboxes = Checkboxes(orderStatus: bool, passwordChange: bool, specialOffers: bool, newsletter: bool)

  const NoNotifications := Checkboxes(false, false, false, false)

  datatype Flag = OrderStatus | PasswordChange | SpecialOffers | Newsletter

  function Get(c: Checkboxes, f: Flag): bool {
    match f
    case OrderStatus => c.orderStatus
    case PasswordChange => c.passwordChange
    case SpecialOffers => c.specialOffers
    case Newsletter => c.newsletter
  }

  /** The `onValueChange` handler of one checkbox: `{...prev, flag: !prev.flag}`. */
  function Toggle(c: Checkboxes, f: Flag): (r: Checkboxes)
    ensures Get(r, f) == !Get(c, f)
    ensures forall g :: g != f ==> Get(r, g) == Get(c, g)
  {
    match f
    case OrderStatus => c.(orderStatus := !c.orderStatus)
    case PasswordChange => c.(passwordChange := !c.passwordChange)
    case SpecialOffers => c.(specialOffers := !c.specialOffers)
    case Newsletter => c.(newsletter := !c.newsletter)
  }

  /** Pressing a checkbox twice restores the four flags. */
  lemma ToggleTwice(c: Checkboxes, f: Flag)
    ensures Toggle(Toggle(c, f), f) == c
  {
    var r := Toggle(Toggle(c, f), f);
    assert forall g :: Get(r, g) == Get(c, g);
    assert Get(r, OrderStatus) == Get(c, OrderStatus) && Get(r, PasswordChange) == Get(c, PasswordChange);
    assert Get(r, SpecialOffers) == Get(c, SpecialOffers) && Get(r, Newsletter) == Get(c, Newsletter);
  }

  // ---------------------------------------------------------------- the stored JSON text

  /** The keys of the checkbox object, in the order `JSON.stringify` writes them. */
  const CheckboxKeys: seq<string> := ["orderStatus", "passwordChange", "specialOffers", "newsletter"]

  function Flags(c: Checkboxes): (bs: seq<bool>)
    ensures |bs| == |CheckboxKeys|
  {
    [c.orderStatus, c.passwordChange, c.specialOffers, c.newsletter]
  }

  function BoolText(b: bool): string {
    if b then "true" else "false"
  }

  function MemberHead(key: string): string {
    "\"" + key + "\":"
  }

  /** `"key":value, ...` for the members of an object of booleans. */
  function EncodeMembers(keys: seq<string>, values: seq<bool>): string
    requires |keys| == |values| >= 1
  {
    MemberHead(keys[0]) + BoolText(values[0]) +
    (if |keys| == 1 then [] else "," + EncodeMembers(keys[1..], values[1..]))
  }

  /** `JSON.stringify(checkboxes)`. */
  function EncodeCheckboxes(c: Checkboxes): string {
    "{" + EncodeMembers(CheckboxKeys, Flags(c)) + "}"
  }

  function ParseBool(s: string): (r: Option<(bool, string)>)
    ensures r.Some? ==> s == BoolText(r.value.0) + r.value.1
  {
    match StripPrefix(s, "true")
    case Some(rest) => Some((true, rest))
    case None =>
      match StripPrefix(s, "false")
      case Some(rest) => Some((false, rest))
      case None => None
  }

  /** Reads the members named `keys`, in that order. */
  function DecodeMembers(keys: seq<string>, s: string): (r: Option<(seq<bool>, string)>)
    requires |keys| >= 1
    ensures r.Some? ==> |r.value.0| == |keys|
    decreases |keys|
  {
    match StripPrefix(s, MemberHead(keys[0]))
    case None => None
    case Some(afterHead) =>
      match ParseBool(afterHead)
      case None => None
      case Some((b, rest)) =>
        if |keys| == 1 then Some(([b], rest))
        else
          match StripPrefix(rest, ",")
          case None => None
          case Some(afterComma) =>
            match DecodeMembers(keys[1..], afterComma)
            case None => None
            case Some((bs, tail)) => Some(([b] + bs, tail))
  }

  /** `JSON.parse(stored)` for the text `JSON.stringify` writes; any other text
      counts as a parse error. */
  function DecodeCheckboxes(s: string): Option<Checkboxes> {
    match StripPrefix(s, "{")
    case None => None
    case Some(body) =>
      match DecodeMembers(CheckboxKeys, body)
      case None => None
      case Some((bs, tail)) =>
        if tail == "}" then Some(Checkboxes(bs[0], bs[1], bs[2], bs[3])) else None
  }

  lemma ParseBoolOf(b: bool, rest: string)
    ensures ParseBool(BoolText(b) + rest) == Some((b, rest))
  {
    StripPrefixOf(BoolText(b), rest);
    if !b {
      var s := "false" + rest;
      assert s[0] == 'f';
    }
  }

  lemma {:induction false} DecodeEncodeMembers(keys: seq<string>, values: seq<bool>, rest: string)
    requires |keys| == |values| >= 1
    ensures DecodeMembers(keys, EncodeMembers(keys, values) + rest) == Some((values, rest))
    decreases |keys|
  {
    var head := MemberHead(keys[0]);
    var tail := if |keys| == 1 then [] else "," + EncodeMembers(keys[1..], values[1..]);
    var afterHead := BoolText(values[0]) + (tail + rest);
    assert EncodeMembers(keys, values) + rest == head + afterHead by {
      Assoc(head, BoolText(values[0]), tail);
      Assoc(head + BoolText(values[0]), tail, rest);
      Assoc(head, BoolText(values[0]), tail + rest);
    }
    StripPrefixOf(head, afterHead);
    ParseBoolOf(values[0], tail + rest);
    if |keys| > 1 {
      var more := EncodeMembers(keys[1..], values[1..]);
      Assoc(",", more, rest);
      StripPrefixOf(",", more + rest);
      DecodeEncodeMembers(keys[1..], values[1..], rest);
      assert [values[0]] + values[1..] == values;
    } else {
      assert [values[0]] == values;
    }
  }

  lemma {:induction false} EncodeDecodeMembers(keys: seq<string>, s: string)
    requires |keys| >= 1 && DecodeMembers(keys, s).Some?
    ensures var (values, rest) := DecodeMembers(keys, s).value;
            s == EncodeMembers(keys, values) + rest
    decreases |keys|
  {
    var head := MemberHead(keys[0]);
    var afterHead := StripPrefix(s, head).value;
    var (b, rest) := ParseBool(afterHead).value;
    if |keys| > 1 {
      var afterComma := StripPrefix(rest, ",").value;
      EncodeDecodeMembers(keys[1..], afterComma);
      var (bs, tail) := DecodeMembers(keys[1..], afterComma).value;
      var values := [b] + bs;
      assert values[0] == b && values[1..] == bs;
      var more := EncodeMembers(keys[1..], bs);
      calc {
        s;
        head + (BoolText(b) + ("," + (more + tail)));
        { Assoc(",", more, tail); Assoc(BoolText(b), "," + more, tail); Assoc(head, BoolText(b) + ("," + more), tail); }
        (head + (BoolText(b) + ("," + more))) + tail;
        { Assoc(head, BoolText(b), "," + more); }
        EncodeMembers(keys, values) + tail;
      }
    } else {
      Assoc(head, BoolText(b), rest);
      assert EncodeMembers(keys, [b]) == head + BoolText(b) + [];
    }
  }

  /** What `saveChanges` stores is read back by `getData`. */
  lemma DecodeEncodeCheckboxes(c: Checkboxes)
    ensures DecodeCheckboxes(EncodeCheckboxes(c)) == Some(c)
  {
    var body := EncodeMembers(CheckboxKeys, Flags(c));
    Assoc("{", body, "}");
    StripPrefixOf("{", body + "}");
    DecodeEncodeMembers(CheckboxKeys, Flags(c), "}");
  }

  /** The only texts read as checkboxes are the ones `saveChanges` writes. */
  lemma EncodeDecodeCheckboxes(s: string)
    requires DecodeCheckboxes(s).Some?
    ensures EncodeCheckboxes(DecodeCheckboxes(s).value) == s
  {
    var body := StripPrefix(s, "{").value;
    var decoded := DecodeMembers(CheckboxKeys, body).value;
    EncodeDecodeMembers(CheckboxKeys, body);
    var bs := decoded.0;
    assert decoded.1 == "}";
    var c := DecodeCheckboxes(s).value;
    assert Flags(c) == bs;
    var members := EncodeMembers(CheckboxKeys, bs);
    assert body == members + "}";
    Assoc("{", members, "}");
  }

  // ---------------------------------------------------------------- the form and its validation

  /** The values the form holds, and the shape of `initialData`. An absent
      image (`null`) is `None`. */
  datatype ProfileData = ProfileData(
    firstName: string, lastName: string, email: string, phoneNumber: string,
    image: Option<string>, checkboxes: Checkboxes)

  const EmptyProfile := ProfileData("", "", "", "", None, NoNotifications)

  /** The outcome of each check on a form: `isFirstNameValid`,
      `isLastNameValid`, `isEmailValid`, `isPhoneNumberValid` and `image != null`. */
  datatype Checks = Checks(firstName: bool, lastName: bool, email: bool, phoneNumber: bool, image: bool)

  function CheckProfile(d: ProfileData): Checks {
    Checks(NameValid(d.firstName), NameValid(d.lastName), EmailValid(d.email),
           PhoneValid(d.phoneNumber), d.image.Some?)
  }

  predicate AllPass(c: Checks) {
    c.firstName && c.lastName && c.email && c.phoneNumber && c.image
  }

  predicate ProfileValid(d: ProfileData) {
    AllPass(CheckProfile(d))
  }

  /** The keys of the error object: `firstName`, `lastName`, `email`,
      `phoneNumber`, `image`. */
  datatype Field = FirstName | LastName | Email | PhoneNumber | Image

  /** The message shown under each field that fails its check. */
  function Message(f: Field): string {
    match f
    case FirstName => "Invalid first name."
    case LastName => "Invalid last name."
    case Email => "Invalid email address."
    case PhoneNumber => "Invalid phone number."
    case Image => "upload an image."
  }

  /** The `newErrors` object `validateInputs` builds from the checks: one
      entry, with its message, for each check that fails. */
  function Errors(c: Checks): (errors: map<Field, string>)
    ensures FirstName in errors <==> !c.firstName
    ensures LastName in errors <==> !c.lastName
    ensures Email in errors <==> !c.email
    ensures PhoneNumber in errors <==> !c.phoneNumber
    ensures Image in errors <==> !c.image
    ensures forall f :: f in errors ==> errors[f] == Message(f)
    ensures errors == map[] <==> AllPass(c)
  {
    Note(Note(Note(Note(Note(map[], c.firstName, FirstName), c.lastName, LastName),
      c.email, Email), c.phoneNumber, PhoneNumber), c.image, Image)
  }

  /** One `if (!isValid) newErrors.field = message;` step. */
  function Note(errors: map<Field, string>, pass: bool, f: Field): map<Field, string> {
    if pass then errors else errors[f := Message(f)]
  }

  /** `userInitials`: the first character of each name, upper-cased. */
  function Initials(firstName: string, lastName: string): (r: string)
    ensures |r| == (if firstName == [] then 0 else 1) + (if lastName == [] then 0 else 1)
    ensures r == [] <==> firstName == [] && lastName == []
    ensures firstName != [] ==> r[0] == ToUpper(firstName[0])
    ensures lastName != [] ==> r[|r| - 1] == ToUpper(lastName[0])
  {
    var first := if firstName == [] then [] else [firstName[0]];
    var last := if lastName == [] then [] else [lastName[0]];
    UpperAscii(first + last)
  }

  /** The body of `validateInputs`: starting from `{}`, one assignment per
      failing check. */
  method CollectErrors(valid: Checks) returns (newErrors: map<Field, string>)
    ensures newErrors == Errors(valid)
  {
    newErrors := map[];
    ghost var before := newErrors;
    if !valid.firstName { newErrors := newErrors[FirstName := Message(FirstName)]; }
    assert newErrors == Note(before, valid.firstName, FirstName);
    before := newErrors;
    if !valid.lastName { newErrors := newErrors[LastName := Message(LastName)]; }
    assert newErrors == Note(before, valid.lastName, LastName);
    before := newErrors;
    if !valid.email { newErrors := newErrors[Email := Message(Email)]; }
    assert newErrors == Note(before, valid.email, Email);
    before := newErrors;
    if !valid.phoneNumber { newErrors := newErrors[PhoneNumber := Message(PhoneNumber)]; }
    assert newErrors == Note(before, valid.phoneNumber, PhoneNumber);
    before := newErrors;
    if !valid.image { newErrors := newErrors[Image := Message(Image)]; }
    assert newErrors == Note(before, valid.image, Image);
  }

  // ---------------------------------------------------------------- loading and saving

  /** `stored || ""`: a missing value and an empty one both read as "". */
  function OrEmpty(v: Option<string>): string {
    if v.Some? then v.value else ""
  }

  /** `stored || null`. */
  function OrNull(v: Option<string>): Option<string> {
    if v.Some? && v.value != "" then v else None
  }

  function Lookup(items: map<string, string>, key: string): Option<string> {
    if key in items then Some(items[key]) else None
  }

  /** The checkboxes `getData` reads: the defaults when nothing (or "") is
      stored, `None` when the stored text does not parse. */
  function StoredCheckboxes(v: Option<string>): Option<Checkboxes> {
    if v.Some? && v.value != "" then DecodeCheckboxes(v.value) else Some(NoNotifications)
  }

  /** The `newInitialData` that `getData` builds from the store, or `None` when
      `JSON.parse` throws and the catch leaves every field as it was. */
  function LoadProfile(items: map<string, string>): Option<ProfileData> {
    match StoredCheckboxes(Lookup(items, UserCheckboxesKey))
    case None => None
    case Some(checkboxes) =>
      Some(ProfileData(
        OrEmpty(Lookup(items, UserNameKey)), OrEmpty(Lookup(items, UserLastNameKey)),
        OrEmpty(Lookup(items, UserEmailKey)), OrEmpty(Lookup(items, UserPhoneNumberKey)),
        OrNull(Lookup(items, UserImageKey)), checkboxes))
  }

  const ProfileKeys := {UserNameKey, UserLastNameKey, UserEmailKey, UserPhoneNumberKey, UserImageKey, UserCheckboxesKey}

  /** The store after the six `setItem` calls of `saveChanges`. */
  function SaveProfile(items: map<string, string>, d: ProfileData): (r: map<string, string>)
    requires d.image.Some?
    ensures r.Keys == items.Keys + ProfileKeys
    ensures r[UserNameKey] == d.firstName && r[UserLastNameKey] == d.lastName
    ensures r[UserEmailKey] == d.email && r[UserPhoneNumberKey] == d.phoneNumber
    ensures r[UserImageKey] == d.image.value && r[UserCheckboxesKey] == EncodeCheckboxes(d.checkboxes)
    ensures forall k :: k in items && k !in ProfileKeys ==> r[k] == items[k]
  {
    items[UserNameKey := d.firstName][UserLastNameKey := d.lastName][UserEmailKey := d.email]
         [UserPhoneNumberKey := d.phoneNumber][UserImageKey := d.image.value]
         [UserCheckboxesKey := EncodeCheckboxes(d.checkboxes)]
  }

  /** With nothing stored (the first visit, or after logging out) the form
      loads empty, with every notification off. */
  lemma LoadNothing()
    ensures LoadProfile(map[]) == Some(EmptyProfile)
  {
  }

  /** Saving and then loading gives back the form, provided the image is a
      real URI (an empty one reads back as no image). */
  lemma LoadAfterSave(items: map<string, string>, d: ProfileData)
    requires d.image.Some? && d.image.value != ""
    ensures LoadProfile(SaveProfile(items, d)) == Some(d)
  {
    DecodeEncodeCheckboxes(d.checkboxes);
  }

  // ---------------------------------------------------------------- the screen

  class ProfileScreen {
    var firstName: string
    var lastName: string
    var email: string
    var phoneNumber: string
    var image: Option<string>
    var checkboxes: Checkboxes
    var errors: map<Field, string>
    var initialData: ProfileData

    /** The component's initial state, before `getData` runs. */
    constructor ()
      ensures Form() == EmptyProfile && initialData == EmptyProfile && errors == map[]
    {
      firstName, lastName, email, phoneNumber := "", "", "", "";
      image := None;
      checkboxes := NoNotifications;
      errors := map[];
      initialData := EmptyProfile;
    }

    function Form(): ProfileData
      reads this
    {
      ProfileData(firstName, lastName, email, phoneNumber, image, checkboxes)
    }

    /** `validateInputs`: records the error of each failing field and reports
        whether there are none. */
    method ValidateInputs() returns (ok: bool)
      modifies this`errors
      ensures errors == Errors(CheckProfile(Form()))
      ensures ok <==> ProfileValid(Form())
    {
      var valid := CheckProfile(Form());
      var newErrors := CollectErrors(valid);
      errors := newErrors;
      ok := |newErrors| == 0;
    }

    /** `getData`: reads the six keys; unless the stored checkboxes fail to
        parse, both `initialData` and the form take the loaded values. */
    method GetData(store: Store)
      modifies this`initialData, this`firstName, this`lastName, this`email,
               this`phoneNumber, this`image, this`checkboxes
      ensures LoadProfile(store.items).Some? ==>
                initialData == LoadProfile(store.items).value && Form() == initialData
      ensures LoadProfile(store.items).None? ==>
                initialData == old(initialData) && Form() == old(Form())
    {
      var storedFirstName := store.GetItem(UserNameKey);
      var storedLastName := store.GetItem(UserLastNameKey);
      var storedEmail := store.GetItem(UserEmailKey);
      var storedPhoneNumber := store.GetItem(UserPhoneNumberKey);
      var storedImage := store.GetItem(UserImageKey);
      var storedCheckboxes := store.GetItem(UserCheckboxesKey);
      var parsed := StoredCheckboxes(storedCheckboxes);
      if parsed.None? {
        // JSON.parse threw: the catch only logs.
        return;
      }
      var newInitialData := ProfileData(
        OrEmpty(storedFirstName), OrEmpty(storedLastName), OrEmpty(storedEmail),
        OrEmpty(storedPhoneNumber), OrNull(storedImage), parsed.value);
      initialData := newInitialData;
      firstName := newInitialData.firstName;
      lastName := newInitialData.lastName;
      email := newInitialData.email;
      phoneNumber := newInitialData.phoneNumber;
      image := newInitialData.image;
      checkboxes := newInitialData.checkboxes;
    }

    /** `saveChanges`: when the form is valid, writes the six keys; otherwise
        the store is untouched. */
    method SaveChanges(store: Store) returns (saved: bool)
      modifies this`errors, store`items
      ensures errors == Errors(CheckProfile(Form()))
      ensures saved <==> ProfileValid(Form())
      ensures saved ==> store.items == SaveProfile(old(store.items), Form())
      ensures !saved ==> store.items == old(store.items)
    {
      saved := ValidateInputs();
      if saved {
        store.SetItem(UserNameKey, firstName);
        store.SetItem(UserLastNameKey, lastName);
        store.SetItem(UserEmailKey, email);
        store.SetItem(UserPhoneNumberKey, phoneNumber);
        store.SetItem(UserImageKey, image.value);
        store.SetItem(UserCheckboxesKey, EncodeCheckboxes(checkboxes));
      }
    }

    /** `discardChanges`: reloads the form from the store. */
    method DiscardChanges(store: Store)
      modifies this`initialData, this`firstName, this`lastName, this`email,
               this`phoneNumber, this`image, this`checkboxes
      ensures LoadProfile(store.items).Some? ==>
                initialData == LoadProfile(store.items).value && Form() == initialData
      ensures LoadProfile(store.items).None? ==>
                initialData == old(initialData) && Form() == old(Form())
    {
      GetData(store);
    }

    /** `handleLogout`: clears the store and resets the form; `initialData`
        keeps its value. */
    method HandleLogout(store: Store)
      modifies store`items, this`firstName, this`lastName, this`email,
               this`phoneNumber, this`image, this`checkboxes
      ensures store.items == map[]
      ensures Form() == EmptyProfile
    {
      store.Clear();
      firstName := "";
      lastName := "";
      email := "";
      phoneNumber := "";
      image := None;
      checkboxes := NoNotifications;
    }

    /** The Remove button under the avatar: `setImage(null)`. */
    method RemoveImage()
      modifies this`image
      ensures image == None
    {
      image := None;
    }

    /** One checkbox's `onValueChange`. */
    method ToggleCheckbox(f: Flag)
      modifies this`checkboxes
      ensures checkboxes == Toggle(old(checkboxes), f)
    {
      checkboxes := Toggle(checkboxes, f);
    }
  }
}
