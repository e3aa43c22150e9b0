/** The Onboarding screen of screens/Onboarding.js: a first name and an e-mail
    address are checked, stored, and lead on to the Profile screen. */
module Onboarding {
  import opened Text
  import opened Validation
  import opened Storage
  import opened Profile

  /** The `newErrors` object of this screen: the first-name and e-mail entries
      of the Profile screen, for the same checks. */
  function OnboardingErrors(nameValid: bool, emailValid: bool): (errors: map<Field, string>)
    ensures FirstName in errors <==> !nameValid
    ensures Email in errors <==> !emailValid
    ensures forall f :: f in errors ==> (f == FirstName || f == Email) && errors[f] == Message(f)
    ensures errors == map[] <==> nameValid && emailValid
  {
    Note(Note(map[], nameValid, FirstName), emailValid, Email)
  }

  const ActiveColour := "#F4CE14"
  const InactiveColour := "#EDEFEE"

  /** The background of the Next button. */
  function NextButtonColour(firstName: string, email: string): (colour: string)
    ensures colour == ActiveColour || colour == InactiveColour
    ensures colour == ActiveColour <==> NameValid(firstName) && EmailValid(email)
  {
    if NameValid(firstName) && EmailValid(email) then ActiveColour else InactiveColour
  }

  /** Where the app goes from the Onboarding screen. */
  datatype Route = StayOnOnboarding | GoToProfile

  /** `getData`: a user who has a stored `UserName` goes on to Profile. */
  method GetData(store: Store) returns (route: Route)
    ensures route == GoToProfile <==> UserNameKey in store.items
  {
    var value := store.GetItem(UserNameKey);
    if value.Some? {
      route := GoToProfile;
    } else {
      route := StayOnOnboarding;
    }
  }

  class OnboardingScreen {
    var firstName: string
    var email: string
    var errors: map<Field, string>

    constructor ()
      ensures firstName == "" && email == "" && errors == map[]
    {
      firstName := "";
      email := "";
      errors := map[];
    }

    /** `validateInputs`. */
    method ValidateInputs() returns (ok: bool)
      modifies this`errors
      ensures errors == OnboardingErrors(NameValid(firstName), EmailValid(email))
      ensures ok <==> NameValid(firstName) && EmailValid(email)
    {
      var isFirstNameValid := NameValid(firstName);
      var isEmailValid := EmailValid(email);
      var newErrors: map<Field, string> := map[];
      if !isFirstNameValid { newErrors := newErrors[FirstName := Message(FirstName)]; }
      assert newErrors == Note(map[], isFirstNameValid, FirstName);
      if !isEmailValid { newErrors := newErrors[Email := Message(Email)]; }
      errors := newErrors;
      ok := |newErrors| == 0;
    }

    /** `setData`: when both fields are valid, stores them and moves on to
        Profile; otherwise the store is untouched. */
    method SetData(store: Store) returns (route: Route)
      modifies this`errors, store`items
      ensures errors == OnboardingErrors(NameValid(firstName), EmailValid(email))
      ensures NameValid(firstName) && EmailValid(email) ==>
                store.items == old(store.items)[UserNameKey := firstName][UserEmailKey := email] &&
                route == GoToProfile
      ensures !(NameValid(firstName) && EmailValid(email)) ==>
                store.items == old(store.items) && route == StayOnOnboarding
    {
      var ok := ValidateInputs();
      if ok {
        store.SetItem(UserNameKey, firstName);
        store.SetItem(UserEmailKey, email);
        route := GoToProfile;
      } else {
        route := StayOnOnboarding;
      }
    }
  }

  /** After onboarding with an empty store, the Profile screen loads the name
      and address, everything else empty; saving that form right away fails on
      the last name, the phone number and the image. */
  lemma ProfileAfterOnboarding(firstName: string, email: string)
    ensures var items := map[][UserNameKey := firstName][UserEmailKey := email];
            LoadProfile(items) == Some(ProfileData(firstName, "", email, "", None, NoNotifications))
    ensures var errors := Errors(CheckProfile(ProfileData(firstName, "", email, "", None, NoNotifications)));
            LastName in errors && PhoneNumber in errors && Image in errors
  {
    var items := map[][UserNameKey := firstName][UserEmailKey := email];
    assert UserCheckboxesKey !in items && UserLastNameKey !in items;
    assert UserPhoneNumberKey !in items && UserImageKey !in items;
    assert !NameValid("");
    assert !PhoneValid("");
  }
}
