# ClubConnect accounts: password confirmation and single-device login

This project models two rules from the `accounts` app of ClubConnect and proves properties of them.

- **Password confirmation** (`AdminUserCreationForm.clean`). The admin's user-creation form checks its password and confirmation fields together. The check only looks at them when both are truthy, meaning present and non-empty. If both are truthy, a mismatch is rejected first. A matching password shorter than 8 characters is rejected next. Otherwise the cleaned data is returned untouched. The model has two parts. `Forms.PasswordError` is the rule over the two optional values. `Forms.Clean` is the hook over the form's cleaned data.
- **Single-device login** (`invalidate_other_sessions`). This handler runs when a user logs in. It looks at the session key recorded on the user. If that key is set and differs from the key of the new request, the handler deletes that one session from the session store. A key with no stored session is ignored. The handler then records the request's key on the user. The model has two classes. `Signals.SessionStore` holds the session table as a map, and `Signals.User` is the user record. The method `Signals.InvalidateOtherSessions` changes only the store's sessions and the user's `currentSessionKey`. Its contract ties the new state to the pure function `Signals.Login`. The properties of the rule are proved about `Signals.Login` and about `Signals.Replay`, which runs a series of logins by one user.

Python truthiness of a `str` or `None` is modelled by `Wrappers.Truthy`: only a non-empty string is true. Dafny's `char` is a Unicode scalar value, so `|s|` agrees with Python's `len` on every `str` that holds only Unicode scalar values.

The docstring of the handler says that "all other sessions" are invalidated. The code deletes only the single session recorded on the user, and the model follows the code. `Signals.ReplayLeavesOnlyLatestSession` states what the code does achieve: after any series of logins through this handler, every non-empty session key the handler recorded, other than the latest, names no stored session.

## Model

| member | source | states |
|---|---|---|
| `Forms.PasswordError` | clubconnect/accounts/forms.py:43-47 | an error is raised only when both values are truthy, and it is one of the two messages of the form |
| `Forms.Clean` | clubconnect/accounts/forms.py:38-49 | on success the result is exactly the cleaned data received; it fails exactly when the password rule raises, and then with that rule's message |
| `Forms.MismatchRejected` | clubconnect/accounts/forms.py:43-45 | two present, non-empty passwords that differ are rejected with "Passwords do not match!", whatever their lengths |
| `Forms.ShortPasswordRejected` | clubconnect/accounts/forms.py:46-47 | a matching non-empty password shorter than 8 characters is rejected with "Password must be at least 8 characters long!" |
| `Forms.TooShortOnlyForMatchingPair` | clubconnect/accounts/forms.py:44-47 | the length error is raised if and only if both values are present, equal and under 8 characters, so a mismatch always takes precedence |
| `Forms.MissingValueNeverRejected` | clubconnect/accounts/forms.py:43 | if either value is `None` or empty, no error is raised |
| `Forms.LongMatchingPasswordAccepted` | clubconnect/accounts/forms.py:43-49 | equal passwords of at least 8 characters are accepted |
| `Forms.AcceptedIff` | clubconnect/accounts/forms.py:43-49 | the check passes if and only if a value is missing or empty, or the two are equal and at least 8 characters long |
| `Forms.PasswordErrorSymmetric` | clubconnect/accounts/forms.py:43-47 | swapping password and confirmation never changes the verdict |
| `Forms.HelpTextStatesMinimum` | clubconnect/accounts/forms.py:46-47 | the numeral in the field's help text on line 16 is the canonical decimal numeral of the enforced minimum and denotes it; the error message is that help text followed by "!" |
| `Signals.SessionStore.Delete` | clubconnect/accounts/signals.py:18-23 | deletes the session with the given key; reports whether it existed; a missing key leaves the store unchanged; every other session keeps its data |
| `Signals.Login` | clubconnect/accounts/signals.py:14-26 | the request's key is recorded; a stale recorded session is absent afterwards; every other session stays; no session is added or altered |
| `Signals.InvalidateOtherSessions` | clubconnect/accounts/signals.py:7-27 | the new store and recorded key are those `Login` gives; the stale session is gone; with no stale key the store is unchanged; no other user field is written |
| `Signals.LoginIdempotent` | clubconnect/accounts/signals.py:17-26 | running the handler twice with the same request gives the same state as running it once |
| `Signals.LoginWithoutStaleKeepsStore` | clubconnect/accounts/signals.py:17 | if the recorded key is unset, empty or equal to the request's key, no session is deleted |
| `Signals.LoginWithMissingOldSession` | clubconnect/accounts/signals.py:18-26 | a recorded key naming no stored session is not an error: the store is unchanged and the new key is recorded |
| `Signals.LoginKeepsCurrentSession` | clubconnect/accounts/signals.py:17-21 | the request's own stored session survives its login with unchanged data |
| `Signals.Replay` | clubconnect/accounts/signals.py:7-27 | after a series of logins the recorded key is the last login's key, and the store only loses sessions and never alters one |
| `Signals.ReplayDeletesStaleRecorded` | clubconnect/accounts/signals.py:17-26 | a key recorded before a series of logins whose last key differs from it is absent from the store afterwards |
| `Signals.ReplayLeavesOnlyLatestSession` | clubconnect/accounts/signals.py:8-27 | after a series of logins, every non-empty key recorded in it, other than the last one, is absent from the store |
| `Signals.UnsavedKeyLeavesNextSession` | clubconnect/accounts/signals.py:14-26 | a login whose request key is `None` records `None`, so the next login deletes nothing and the earlier session survives both |

## Left out

- The video-conferencing client's peer-connection negotiation (offer and answer exchange, glare tie-break, candidate buffering, roster reconciliation, teardown) is outside this model.
- `EditProfileForm`, the `Meta` field lists, labels, widgets and placeholders (clubconnect/accounts/forms.py:4-36) are left out. They are rendering settings with no behaviour, apart from the help text, which `Forms.HelpTextStatesMinimum` covers.
- `super().clean()` and Django's field-level validation (required fields, e-mail format) are left out. They are library behaviour. `Forms.Clean` takes their result, the cleaned data, as its input.
- `Forms.Clean`: cleaned values are modelled as text only. Non-text values are not modelled because every field of this form cleans to text.
- `Session.objects.get`, `.delete()` and `user.save(update_fields=...)` become map and field updates. Transactions, database errors and persistence are not modelled.
- Session expiry is not modelled. `SessionData.expireDate` is carried but never read.
- The `@receiver(user_logged_in)` registration is dispatch plumbing and is left out. The handler is called directly, and the `request` is reduced to its session key.
- Concurrent logins by the same user that race on `current_session_key` are not modelled. The code makes no promise about them.
- `Signals.Replay`: it models consecutive runs of the handler only. Sessions that Django creates between logins are not modelled.
- `Signals.ReplayLeavesOnlyLatestSession`: it covers non-empty keys only. A login whose request session is unsaved records `None`, which gives the next login nothing to delete, so the session held before it survives; `Signals.UnsavedKeyLeavesNextSession` states this case.
