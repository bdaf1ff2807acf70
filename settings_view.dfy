/** The settings screens (`Views/Settings/SettingsView.swift`): the app
    settings form with its pickers and admin-email field, the profile form,
    and the change-password sheet. */
module SettingsView {
  import opened Wrappers
  import opened SettingsModels
  import AuthManager

  // ---------------------------------------------------------------------
  // Change password

  /** `ChangePasswordView.isValid`; `count` is Swift's `String.count`, the
      number of user-perceived characters. */
  predicate PasswordChangeValid(current: string, proposed: string, confirm: string, count: string -> nat) {
    current != "" && proposed != "" && proposed == confirm && count(proposed) >= 8
  }

  /** A valid change carries a confirmed password of at least eight
      characters; a shorter or unconfirmed one is refused whatever the
      current password. */
  lemma PasswordChangeRule(current: string, proposed: string, confirm: string, count: string -> nat)
    ensures PasswordChangeValid(current, proposed, confirm, count) ==> count(proposed) >= 8 && proposed == confirm && current != ""
    ensures count(proposed) < 8 || proposed != confirm ==> !PasswordChangeValid(current, proposed, confirm, count)
    ensures current != "" && proposed != "" && count(proposed) >= 8 ==> PasswordChangeValid(current, proposed, proposed, count)
  {
  }

  /** The call `changePassword` makes. */
  datatype PasswordChange = PasswordChange(currentPassword: string, newPassword: string, confirmPassword: string)

  class ChangePasswordSheet {
    var currentPassword: string
    var newPassword: string
    var confirmPassword: string
    var isLoading: bool
    var errorMessage: Option<string>
    var dismissed: bool

    constructor()
      ensures currentPassword == "" && newPassword == "" && confirmPassword == ""
      ensures !isLoading && errorMessage.None? && !dismissed
    {
      currentPassword, newPassword, confirmPassword := "", "", "";
      isLoading, errorMessage, dismissed := false, None, false;
    }

    predicate IsValid(count: string -> nat)
      reads this
    {
      PasswordChangeValid(currentPassword, newPassword, confirmPassword, count)
    }

    /** `changePassword`: sends the three fields; success dismisses the
        sheet, failure shows the error; loading ends either way. */
    method ChangePassword(failure: Option<string>) returns (sent: PasswordChange)
      modifies this
      ensures sent == PasswordChange(old(currentPassword), old(newPassword), old(confirmPassword))
      ensures failure.None? ==> dismissed && errorMessage == old(errorMessage)
      ensures failure.Some? ==> dismissed == old(dismissed) && errorMessage == failure
      ensures !isLoading
      ensures currentPassword == old(currentPassword) && newPassword == old(newPassword) && confirmPassword == old(confirmPassword)
    {
      isLoading := true;
      sent := PasswordChange(currentPassword, newPassword, confirmPassword);
      if failure.None? {
        dismissed := true;
      } else {
        errorMessage := failure;
      }
      isLoading := false;
    }
  }

  // ---------------------------------------------------------------------
  // App settings

  /** The admin-email text field's getter: no address shows as "". */
  function AdminEmailText(s: AppSettings): string {
    s.adminEmail.GetOr("")
  }

  /** The field's setter: an emptied field stores no address. */
  function WithAdminEmailText(s: AppSettings, text: string): (r: AppSettings)
    ensures r.timezone == s.timezone && r.timeFormat == s.timeFormat && r.weekStartsOn == s.weekStartsOn
    ensures r.adminEmail.None? <==> text == ""
  {
    s.(adminEmail := if text == "" then None else Some(text))
  }

  /** The field shows what was typed into it, and writing back what it
      shows changes nothing, except for a stored empty address, which the
      binding turns into none. */
  lemma AdminEmailBindingRoundTrip(s: AppSettings, text: string)
    ensures AdminEmailText(WithAdminEmailText(s, text)) == text
    ensures WithAdminEmailText(s, AdminEmailText(s)) == s <==> s.adminEmail != Some("")
  {
  }

  /** A settings field a picker edits. */
  datatype SettingsEdit = Timezone(tz: string) | TimeFormat(hours: int) | WeekStart(day: int)

  function Applied(s: AppSettings, e: SettingsEdit): (r: AppSettings)
    ensures r.adminEmail == s.adminEmail
    ensures e.Timezone? ==> r == s.(timezone := e.tz)
    ensures e.TimeFormat? ==> r == s.(timeFormat := e.hours)
    ensures e.WeekStart? ==> r == s.(weekStartsOn := e.day)
  {
    match e
    case Timezone(tz) => s.(timezone := tz)
    case TimeFormat(h) => s.(timeFormat := h)
    case WeekStart(d) => s.(weekStartsOn := d)
  }

  /** How many picker `onChange` handlers fire when the settings go from
      `before` to `after`: one for each picked field (zone, time format,
      week start) whose value differs, whatever changed it. Each handler
      starts its own `saveSettings`. */
  function SavesTriggered(before: AppSettings, after: AppSettings): (n: nat)
    ensures n <= 3
    ensures n == 0 <==>
      before.timezone == after.timezone && before.timeFormat == after.timeFormat && before.weekStartsOn == after.weekStartsOn
  {
    (if before.timezone != after.timezone then 1 else 0)
    + (if before.timeFormat != after.timeFormat then 1 else 0)
    + (if before.weekStartsOn != after.weekStartsOn then 1 else 0)
  }

  class SettingsViewModel {
    var settings: AppSettings
    var isLoading: bool
    var errorMessage: Option<string>

    constructor()
      ensures settings == DefaultSettings && !isLoading && errorMessage.None?
    {
      settings := DefaultSettings;
      isLoading := false;
      errorMessage := None;
    }

    /** `loadSettings`: the server's settings replace the defaults; an error
        keeps them. Replacing them fires the pickers' `onChange`, so `saves`
        further saves start at once. */
    method LoadSettings(response: Result<AppSettings, string>) returns (saves: nat)
      modifies this
      ensures response.Success? ==> settings == response.value && errorMessage == old(errorMessage)
      ensures response.Failure? ==> settings == old(settings) && errorMessage == Some(response.error)
      ensures saves == SavesTriggered(old(settings), settings)
      ensures response.Failure? ==> saves == 0
      ensures !isLoading
    {
      isLoading := true;
      var before := settings;
      if response.Success? {
        settings := response.value;
      } else {
        errorMessage := Some(response.error);
      }
      saves := SavesTriggered(before, settings);
      isLoading := false;
    }

    /** `saveSettings`: sends the current settings and takes the server's
        answer in their place; an error keeps them. An answer that differs
        from what was sent in a picked field fires `onChange` again, so
        `saves` further saves start. */
    method SaveSettings(response: Result<AppSettings, string>) returns (sent: AppSettings, saves: nat)
      modifies this
      ensures sent == old(settings)
      ensures response.Success? ==> settings == response.value && errorMessage == old(errorMessage)
      ensures response.Failure? ==> settings == old(settings) && errorMessage == Some(response.error)
      ensures saves == SavesTriggered(sent, settings)
      ensures response.Failure? || response.value == sent ==> saves == 0
      ensures isLoading == old(isLoading)
    {
      sent := settings;
      if response.Success? {
        settings := response.value;
      } else {
        errorMessage := Some(response.error);
      }
      saves := SavesTriggered(sent, settings);
    }

    /** A picker choice: `onChange` fires only when the choice changes the
        field, and then the edited settings are saved at once; `saves`
        counts the saves the server's answer starts in turn. Choosing the
        value already shown sends nothing. */
    method Pick(e: SettingsEdit, response: Result<AppSettings, string>) returns (sent: Option<AppSettings>, saves: nat)
      modifies this
      ensures sent.Some? <==> Applied(old(settings), e) != old(settings)
      ensures sent.None? ==> settings == old(settings) && errorMessage == old(errorMessage) && saves == 0
      ensures sent.Some? ==> sent.value == Applied(old(settings), e)
      ensures sent.Some? && response.Success? ==> settings == response.value && errorMessage == old(errorMessage)
      ensures sent.Some? && response.Failure? ==> settings == sent.value && errorMessage == Some(response.error)
      ensures sent.Some? ==> saves == SavesTriggered(sent.value, settings)
      ensures isLoading == old(isLoading)
    {
      var picked := Applied(settings, e);
      if picked == settings {
        sent, saves := None, 0;
      } else {
        settings := picked;
        var body;
        body, saves := SaveSettings(response);
        sent := Some(body);
      }
    }

    /** Typing in the admin-email field: stored locally only, since the
        field has no `onChange`; it reaches the server with the next picker
        change. */
    method EditAdminEmail(text: string)
      modifies this
      ensures settings == WithAdminEmailText(old(settings), text)
      ensures isLoading == old(isLoading) && errorMessage == old(errorMessage)
    {
      settings := WithAdminEmailText(settings, text);
    }
  }

  /** Opening the screen re-saves: when the stored settings differ from the
      defaults in a picked field, loading them fires that field's
      `onChange`, which sends back the very settings just loaded. */
  lemma LoadingStoredSettingsSaves(stored: AppSettings)
    requires stored.timezone != DefaultSettings.timezone || stored.timeFormat != 24 || stored.weekStartsOn != 1
    ensures SavesTriggered(DefaultSettings, stored) >= 1
  {
  }

  /** A pick is sent only when it changes a picked field, which fires
      exactly that field's `onChange` once: one save per real choice. */
  lemma PickFiresOnce(s: AppSettings, e: SettingsEdit)
    ensures Applied(s, e) != s <==> SavesTriggered(s, Applied(s, e)) == 1
    ensures Applied(s, e) == s <==> SavesTriggered(s, Applied(s, e)) == 0
  {
  }

  /** An admin email typed and then followed by a picker change is sent
      with that change. */
  lemma TypedEmailTravelsWithNextPick(s: AppSettings, text: string, e: SettingsEdit)
    ensures Applied(WithAdminEmailText(s, text), e).adminEmail == (if text == "" then None else Some(text))
  {
  }

  // ---------------------------------------------------------------------
  // Profile

  /** The profile call's fields. */
  datatype ProfileUpdate = ProfileUpdate(name: string, email: string)

  class ProfileViewModel {
    var name: string
    var email: string
    var isLoading: bool
    var showSuccess: bool
    var errorMessage: Option<string>
    var originalName: string
    var originalEmail: string
    /** `AuthManager.shared`. */
    const session: AuthManager.Session

    constructor(session: AuthManager.Session)
      ensures this.session == session
      ensures name == "" && email == "" && originalName == "" && originalEmail == ""
      ensures !isLoading && !showSuccess && errorMessage.None?
    {
      this.session := session;
      name, email, originalName, originalEmail := "", "", "", "";
      isLoading, showSuccess, errorMessage := false, false, None;
    }

    predicate HasChanges()
      reads this
    {
      name != originalName || email != originalEmail
    }

    /** `onAppear`: the form shows the signed-in user but the originals stay
        as they were, so a fresh form already reports changes whenever the
        user has a name or an email. */
    method OnAppear()
      modifies this
      ensures name == (if old(session.currentUser).Some? then old(session.currentUser).value.name else "")
      ensures email == (if old(session.currentUser).Some? then old(session.currentUser).value.email else "")
      ensures originalName == old(originalName) && originalEmail == old(originalEmail)
      ensures isLoading == old(isLoading) && showSuccess == old(showSuccess) && errorMessage == old(errorMessage)
      ensures old(originalName) == "" && old(originalEmail) == "" ==>
        (HasChanges() <==> name != "" || email != "")
    {
      var user := session.currentUser;
      name := if user.Some? then user.value.name else "";
      email := if user.Some? then user.value.email else "";
    }

    /** `updateProfile`: on success the returned user is saved into the
        session and the originals catch up with the form, so nothing is
        left to save; on failure the originals stay. */
    method UpdateProfile(response: Result<AuthManager.User, string>) returns (sent: ProfileUpdate)
      modifies this, session
      ensures sent == ProfileUpdate(old(name), old(email))
      ensures name == old(name) && email == old(email) && !isLoading
      ensures response.Success? ==>
        && originalName == name && originalEmail == email && !HasChanges() && showSuccess
        && session.currentUser == Some(response.value) && session.storedUser == Some(response.value)
        && errorMessage == old(errorMessage)
      ensures response.Failure? ==>
        && originalName == old(originalName) && originalEmail == old(originalEmail) && HasChanges() == old(HasChanges())
        && errorMessage == Some(response.error) && showSuccess == old(showSuccess)
        && session.currentUser == old(session.currentUser) && session.storedUser == old(session.storedUser)
      ensures session.keychain == old(session.keychain) && session.isAuthenticated == old(session.isAuthenticated)
    {
      isLoading := true;
      sent := ProfileUpdate(name, email);
      if response.Success? {
        session.SaveUser(response.value);
        originalName := name;
        originalEmail := email;
        showSuccess := true;
      } else {
        errorMessage := Some(response.error);
      }
      isLoading := false;
    }
  }
}
