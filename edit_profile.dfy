/**
 * The buyer's profile page: it loads the profile once, lets the user edit
 * a copy of it field by field, cancel back to the loaded profile or save the
 * copy, shows one error or success banner, and logs out by dropping the
 * session and the cart from local storage.
 */
module EditProfile {
  import opened Js
  import opened Storefront
  import opened LocalStorage

  /** A profile object: field name to text value. */
  type ProfileData = map<string, string>

  const LoadFailedMessage: string := "Failed to load user data. Please try again later."
  const SaveFailedMessage: string := "Failed to update user data. Please try again."
  const SavedMessage: string := "Profile updated successfully!"

  /**
   * The page's state: the loaded profile (`null` until it loads), the copy
   * being edited, whether the form is open, and the two banners.
   */
  datatype PageState = PageState(
    userData: Option<ProfileData>,
    editedData: Option<ProfileData>,
    isEditing: bool,
    error: Option<string>,
    success: Option<string>)

  /** The state before the profile request returns. */
  const Initial: PageState := PageState(None, Some(map[]), false, None, None)

  // ---------------------------------------------------------------------
  // The transitions, as functions of the state
  // ---------------------------------------------------------------------

  /** `fetchUserData`: the response becomes both the profile and the copy; a failure sets the error. */
  function Fetch(s: PageState, reply: Option<ProfileData>): (t: PageState)
    ensures reply.Some? ==> t.userData == reply && t.editedData == t.userData && t.error == s.error
    ensures reply.None? ==>
      t.error == Some(LoadFailedMessage) && t.userData == s.userData && t.editedData == s.editedData
    ensures t.isEditing == s.isEditing && t.success == s.success
  {
    if reply.Some? then s.(userData := reply, editedData := reply)
    else s.(error := Some(LoadFailedMessage))
  }

  /** `handleEdit`: opens the form with no banner; the profile and the copy stay as they were. */
  function Edit(s: PageState): (t: PageState)
    ensures t.isEditing && t.error == None && t.success == None
    ensures t.userData == s.userData && t.editedData == s.editedData
  {
    s.(isEditing := true, error := None, success := None)
  }

  /** `handleCancel`: closes the form with no banner and puts the copy back to the loaded profile. */
  function Cancel(s: PageState): (t: PageState)
    ensures !t.isEditing && t.error == None && t.success == None
    ensures t.editedData == s.userData && t.userData == s.userData
  {
    s.(isEditing := false, editedData := s.userData, error := None, success := None)
  }

  /**
   * `handleChange`: `{ ...editedData, [name]: value }` (spreading `null`
   * gives `{}`). The named field of the copy is set, every other field keeps
   * its value or stays absent, and nothing else changes.
   */
  function Change(s: PageState, name: string, value: string): (t: PageState)
    ensures t.editedData.Some? && name in t.editedData.value && t.editedData.value[name] == value
    ensures s.editedData.Some? ==> t.editedData.value.Keys == s.editedData.value.Keys + {name}
    ensures s.editedData.None? ==> t.editedData.value.Keys == {name}
    ensures s.editedData.Some? ==>
      forall k :: k in s.editedData.value && k != name ==> t.editedData.value[k] == s.editedData.value[k]
    ensures t.userData == s.userData && t.isEditing == s.isEditing && t.error == s.error && t.success == s.success
  {
    var base := if s.editedData.Some? then s.editedData.value else map[];
    s.(editedData := Some(base[name := value]))
  }

  /**
   * `handleSave`, given the server's reply (`None` when the request failed).
   * Success shows the server's profile, closes the form and shows only the
   * success banner; failure records the error, drops the success banner, and
   * keeps the profile and the open form. The copy is kept either way.
   */
  function Save(s: PageState, reply: Option<ProfileData>): (t: PageState)
    ensures reply.Some? ==> t.userData == reply && !t.isEditing && t.success == Some(SavedMessage) && t.error == None
    ensures reply.None? ==>
      t.error == Some(SaveFailedMessage) && t.success == None && t.userData == s.userData && t.isEditing == s.isEditing
    ensures t.editedData == s.editedData
  {
    if reply.Some? then s.(userData := reply, isEditing := false, success := Some(SavedMessage), error := None)
    else s.(error := Some(SaveFailedMessage), success := None)
  }

  /** The timer started by a successful save clears the success banner and nothing else. */
  function SuccessTimeout(s: PageState): (t: PageState)
    ensures t.success == None
    ensures t.userData == s.userData && t.editedData == s.editedData && t.isEditing == s.isEditing && t.error == s.error
  {
    s.(success := None)
  }

  /** One keystroke in the form: the input's `name` and its new value. */
  datatype Keystroke = Keystroke(name: string, value: string)

  /** A run of keystrokes, applied in order. */
  function ChangeAll(s: PageState, keys: seq<Keystroke>): PageState
    decreases |keys|
  {
    if keys == [] then s else ChangeAll(Change(s, keys[0].name, keys[0].value), keys[1..])
  }

  // ---------------------------------------------------------------------
  // What the transitions promise
  // ---------------------------------------------------------------------

  /** The page never shows the error and the success banner together. */
  predicate OneBanner(s: PageState) {
    !(s.error.Some? && s.success.Some?)
  }

  /** Every handler keeps at most one banner on screen; the mount-time load starts from none. */
  lemma HandlersKeepOneBanner(s: PageState, name: string, value: string, reply: Option<ProfileData>)
    requires OneBanner(s)
    ensures OneBanner(Edit(s)) && OneBanner(Cancel(s)) && OneBanner(Change(s, name, value))
    ensures OneBanner(Save(s, reply)) && OneBanner(SuccessTimeout(s))
    ensures OneBanner(Fetch(Initial, reply))
  {
  }

  /** Keystrokes touch only the copy. */
  lemma {:induction false} ChangeAllKeepsProfile(s: PageState, keys: seq<Keystroke>)
    ensures var t := ChangeAll(s, keys);
      t.userData == s.userData && t.isEditing == s.isEditing && t.error == s.error && t.success == s.success
    decreases |keys|
  {
    if keys != [] {
      ChangeAllKeepsProfile(Change(s, keys[0].name, keys[0].value), keys[1..]);
    }
  }

  /** Whatever was typed after Edit, Cancel closes the form and puts the copy back to the loaded profile. */
  lemma EditTypeCancelRestores(s: PageState, keys: seq<Keystroke>)
    ensures var t := Cancel(ChangeAll(Edit(s), keys));
      !t.isEditing && t.editedData == s.userData && t.userData == s.userData &&
      t.error == None && t.success == None
  {
    ChangeAllKeepsProfile(Edit(s), keys);
  }

  /** `handleLogout`'s storage effect: the session and the cart keys are dropped. */
  function WithoutSession(entries: map<string, Value>): (r: map<string, Value>)
    ensures r.Keys == entries.Keys - {TokenKey, UserKey, CartKey}
    ensures forall k :: k in r ==> r[k] == entries[k]
  {
    entries - {TokenKey, UserKey, CartKey}
  }

  /** After logout there is no token, no stored user and an empty cart. */
  lemma LogoutClearsSession(entries: map<string, Value>)
    ensures var e := WithoutSession(entries);
      GetText(e, TokenKey) == None && UserKey !in e && StoredCart(e) == []
  {
  }

  // ---------------------------------------------------------------------
  // The page component and its handlers
  // ---------------------------------------------------------------------

  class ProfilePage {
    var userData: Option<ProfileData>
    var editedData: Option<ProfileData>
    var isEditing: bool
    var error: Option<string>
    var success: Option<string>

    /** The current state as a value. */
    function State(): PageState
      reads this
    {
      PageState(userData, editedData, isEditing, error, success)
    }

    /** Mounting the page: the initial state, then the one profile request the page makes. */
    constructor Mount(reply: Option<ProfileData>)
      ensures State() == Fetch(Initial, reply)
      ensures reply.Some? ==> userData == reply && editedData == reply && error == None
      ensures reply.None? ==> userData == None && editedData == Some(map[]) && error == Some(LoadFailedMessage)
      ensures !isEditing && success == None
    {
      userData := None;
      editedData := Some(map[]);
      isEditing := false;
      error := None;
      success := None;
      new;
      if reply.Some? {
        userData := reply;
        editedData := reply;
      } else {
        error := Some(LoadFailedMessage);
      }
    }

    /** `handleLogout`: removes `token`, `user` and `cart` from storage and goes to the login page. */
    method HandleLogout(store: Store) returns (route: string)
      modifies store
      ensures store.entries == WithoutSession(old(store.entries))
      ensures route == LoginRoute
    {
      store.RemoveItem(TokenKey);
      store.RemoveItem(UserKey);
      store.RemoveItem(CartKey);
      route := LoginRoute;
    }

    /** `handleEdit`. */
    method HandleEdit()
      modifies this
      ensures isEditing && error == None && success == None
      ensures userData == old(userData) && editedData == old(editedData)
      ensures State() == Edit(old(State()))
    {
      isEditing := true;
      error := None;
      success := None;
    }

    /** `handleCancel`. */
    method HandleCancel()
      modifies this
      ensures !isEditing && editedData == old(userData) && error == None && success == None
      ensures userData == old(userData)
      ensures State() == Cancel(old(State()))
    {
      isEditing := false;
      editedData := userData;
      error := None;
      success := None;
    }

    /** `handleChange` for the input named `name`. */
    method HandleChange(name: string, value: string)
      modifies this
      ensures editedData == Some((if old(editedData).Some? then old(editedData).value else map[])[name := value])
      ensures userData == old(userData) && isEditing == old(isEditing)
      ensures error == old(error) && success == old(success)
      ensures State() == Change(old(State()), name, value)
    {
      var base := if editedData.Some? then editedData.value else map[];
      editedData := Some(base[name := value]);
    }

    /** `handleSave`: sends the copy; `reply` is the server's profile, or `None` when the request failed. */
    method HandleSave(reply: Option<ProfileData>) returns (body: Option<ProfileData>)
      modifies this
      ensures body == old(editedData)
      ensures reply.Some? ==> userData == reply && !isEditing && success == Some(SavedMessage) && error == None
      ensures reply.None? ==> userData == old(userData) && isEditing == old(isEditing)
                              && error == Some(SaveFailedMessage) && success == None
      ensures editedData == old(editedData)
      ensures State() == Save(old(State()), reply)
    {
      body := editedData;
      if reply.Some? {
        userData := reply;
        isEditing := false;
        success := Some(SavedMessage);
        error := None;
      } else {
        error := Some(SaveFailedMessage);
        success := None;
      }
    }

    /** The timer set by a successful save fires. */
    method HandleSuccessTimeout()
      modifies this
      ensures success == None
      ensures userData == old(userData) && editedData == old(editedData)
      ensures isEditing == old(isEditing) && error == old(error)
      ensures State() == SuccessTimeout(old(State()))
    {
      success := None;
    }
  }
}
