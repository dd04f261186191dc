# Budgeting and timesheet backend: a verified Dafny model

This project models the core of a Django backend for project budgeting, quotes and time tracking. It covers:

- **Running timers in Redis**: the per-user task and start keys (`Project/redis_utils.py`), the websocket consumer that starts a timer and reports one already running (`Project/consumers.py`), and the `seconds_to_hms` conversion.
- **Calendar helpers**: `get_week_range` (`Project/utils.py`), the overdue-reminder job (`Project/overdue_check.py`), and the `isoformat` text the timers store.
- **Quotes and line items**: the amount computed on save, the quote totals, the serializer's create and update, the sales-pipeline grouping and the choice lists (`product_group/`).
- **Product groups and services**: name cleaning and duplicate checks, and the representation changes (`product_group/`, `Project/product_group/`).
- **Projects and budgets**: `Project.save`, `ProjectBudget.apply_quoted_amounts` and the two serializers' checks (`Project/models.py`, `Project/serializers.py`).
- **Role-based access control**: permission code validation, the permission cache of `RBACUserMixin`, the role name check, and both `HasPermissionCode` classes (`roles/`, `Project/roles/`).
- **Password reset with one-time codes**:
  - the `PasswordResetOTP` model (`accounts/models.py`);
  - the login routing, the cache throttle on OTP requests, verification, reset and resend (`Project/accounts/serializers.py`);
  - the older versions of these flows (`accounts/serializers.py`).
- **Clients**: the validation-error formatter of the client views (`Project/client/views.py`) and the point-of-contact duplicate checks (`client/serializers.py`).

Each core file is one module. Entities that the source updates in place are classes whose methods say what they change: Redis, quotes and items, projects and budgets, the RBAC user, the OTP rows, the reset service and the consumer. Pure checks are functions with named results. Each operation is paired with lemmas that relate it to an independent statement of what it should do.

Modelling choices:
- Time is a parameter: whole seconds for the cache and the OTPs, a `DateTime` value for the timers, and day ordinals for dates.
- Money and hours are exact `real` numbers.
- Strings are `seq<char>`.
- Database tables are sequences of rows or objects. A sequence stands for the queryset's default ordering, so "first" is what `.first()` returns: `Account` rows ordered by `first_name` then `last_name` (`Meta.ordering`), and users by primary key.

`Text` holds the string helpers shared by several modules, following Python semantics: `strip`, `lower`, `split`, `in` and decimal formatting. `Queries` holds the one ORM query shape the validators share. `Wrappers` holds `Option`, `Result` and `Outcome`.

## Model

| member | source | states |
|---|---|---|
| RedisUtils.KeyValueStore.Set | Project/redis_utils.py:16-17 | `SET` maps the key to the value and leaves every other key alone |
| RedisUtils.KeyValueStore.Delete | Project/redis_utils.py:20-21 | `DEL` removes the key (a missing key is no error) and nothing else |
| RedisUtils.KeyValueStore.Get | Project/redis_utils.py:24-25 | `GET` answers the stored value, or None for a missing key, and changes nothing |
| RedisUtils.KeyValueStore.Exists | Project/redis_utils.py:13 | `EXISTS` is true exactly when the key is stored |
| RedisUtils.KeysAreDistinct | Project/redis_utils.py:7-21 | the `budgeting:active_timer:` and `budgeting:timer_start:` key families never meet, and each key names exactly one user |
| RedisUtils.OtherUsersKeys | Project/redis_utils.py:15-21 | another user's keys differ from both of a user's keys |
| RedisUtils.WithTimer | Project/redis_utils.py:15-17 | after `set_active_timer` the user's task key holds the task and the start key holds the isoformat text; every other key is unchanged |
| RedisUtils.WithoutTimer | Project/redis_utils.py:19-21 | after `clear_active_timer` neither of the user's keys is present; every other key is unchanged |
| RedisUtils.HasActiveTimer | Project/redis_utils.py:9-13 | true exactly when the user's start key exists |
| RedisUtils.SetActiveTimer | Project/redis_utils.py:15-17 | the store becomes `WithTimer` of the old store |
| RedisUtils.ClearActiveTimer | Project/redis_utils.py:19-21 | the store becomes `WithoutTimer` of the old store |
| RedisUtils.GetActiveTimer | Project/redis_utils.py:23-26 | answers the user's task and start values, each None when absent, and changes nothing |
| RedisUtils.HasTimerIgnoresTaskKey | Project/redis_utils.py:13 | writing or deleting the task key never changes whether a timer is reported running |
| RedisUtils.SetOverwrites | Project/redis_utils.py:15-17 | a second `set_active_timer` for the same user replaces the first entirely |
| RedisUtils.ClearAfterSet | Project/redis_utils.py:19-21 | clearing after setting leaves none of the user's keys, and other users' keys as they were |
| RedisUtils.SecondsToHms | Project/redis_utils.py:28-36 | hours*3600 + minutes*60 + seconds is the input, minutes and seconds lie in 0..59, and the hours are non-negative for a non-negative input |
| RedisUtils.HmsFormattedReadsBack | Project/redis_utils.py:37 | the `HH:MM:SS` text has at least two hour digits and exactly two minute and two second digits, and reads back as the number of seconds it was made from |
| DateTimes.PaddedField | Project/redis_utils.py:17 | a number below 10^width, padded to width digits, is width digits that read back as the number |
| DateTimes.TripleRoundTrip | Project/redis_utils.py:17 | three padded fields joined by a separator read back as the same three numbers |
| DateTimes.IsoFormatRoundTrip | Project/redis_utils.py:17 | the isoformat text of a valid datetime parses back to the same datetime, with or without microseconds |
| DateTimes.IsoFormatInjective | Project/redis_utils.py:17 | two valid datetimes with the same isoformat text are equal |
| DateTimes.IsoFormat | Project/redis_utils.py:17 | a valid datetime is written as 19 characters, or 26 with microseconds, with 'T' between date and time |
| Consumers.ExtractToken | Project/consumers.py:13-16 | None exactly when the query has no `token=`; a token never contains `&` |
| Consumers.ExtractTokenAfterLastMarker | Project/consumers.py:16 | the token is the text after the last `token=`, up to the first `&` after it |
| Consumers.Receive | Project/consumers.py:47-71 | only a "start" with no running timer changes the store; it fails exactly when such a start has no task id; a "start" that does not fail always sends a reply |
| Consumers.AuthenticatedUser | Project/consumers.py:14-29 | no user without a non-empty token; otherwise the user the token resolves to |
| Consumers.GroupNamesDistinct | Project/consumers.py:32 | distinct users get distinct `user_<id>` group names |
| Consumers.OtherActionsInert | Project/consumers.py:48-49 | an action other than "start" changes nothing and sends nothing |
| Consumers.StartWhenRunning | Project/consumers.py:50-60 | with a truthy stored task, "start" replies `already_running` with the stored task and start, and leaves the store alone |
| Consumers.StartWhenIdle | Project/consumers.py:61-71 | with no timer running, "start" stores the task and `now`, replies `started` with the same task and the stored start plus "Z", and leaves other users' timers unchanged |
| Consumers.StartedAtReadsBack | Project/consumers.py:64-70 | the reply's `started_at` ends in "Z", and without it parses back to the stored instant |
| Consumers.StartNeverReplaces | Project/consumers.py:50-60 | "start" never replaces a running timer, whatever the message |
| Consumers.SecondStartRefused | Project/consumers.py:47-71 | after a successful start, a second start is answered with the first task and start and changes nothing |
| Consumers.EmptyTaskIdNotRunning | Project/consumers.py:52-65 | an empty task id is stored but is falsy: `has_active_timer` reports a timer while "start" still treats the user as idle |
| Consumers.StartWithoutTaskFails | Project/consumers.py:62-65 | a "start" without a task id raises the store's None-value error before anything is stored |
| Consumers.TaskTimerConsumer.constructor | Project/consumers.py:8 | a new consumer has no user or group, is not accepted, and has sent nothing |
| Consumers.TaskTimerConsumer.Connect | Project/consumers.py:11-35 | without an authenticated user the socket is closed with code 4001 and nothing else changes; otherwise the user and `user_<id>` group are recorded and the socket is accepted |
| Consumers.TaskTimerConsumer.ReceiveJson | Project/consumers.py:47-71 | the store and the sent replies change exactly as `Receive` describes, and on the error path not at all |
| WeekRange.Weekday | Project/utils.py:4 | a weekday is between 0 (Monday) and 6 (Sunday) |
| WeekRange.GetWeekRange | Project/utils.py:3-6 | a returned pair is a Monday and the Sunday six days later, with the date between them |
| WeekRange.AddDays | Project/utils.py:4-5 | adding days succeeds exactly when the result is still a calendar date, and then it is that date |
| WeekRange.WeekRangeShape | Project/utils.py:3-6 | a range exists exactly for dates before the calendar's last partial week; the pair is a Monday and the Sunday six days later, and the date lies between them |
| WeekRange.SameWeekSameRange | Project/utils.py:3-6 | two dates get the same answer exactly when they lie in the same Monday-to-Sunday week |
| WeekRange.WeekRangeIdempotent | Project/utils.py:3-6 | asking again with the returned Monday or the returned Sunday gives the same pair |
| OverdueCheck.Bucket | Project/overdue_check.py:14-17 | the 1-hour reminder is due exactly for 0.5 < remaining <= 1, the half-hour one exactly for 0 < remaining <= 0.5, and none otherwise |
| OverdueCheck.CheckAndSendOverdueEmails | Project/overdue_check.py:7-17 | the loop schedules exactly the reminders of the reference definition, in task order |
| OverdueCheck.OneReminderPerDueTask | Project/overdue_check.py:9-17 | a run schedules one reminder per due task and none for the other tasks |
| OverdueCheck.DueTaskReminded | Project/overdue_check.py:14-17 | every due task gets a reminder with its id, its assignee and its bucket |
| OverdueCheck.ReminderHasItsTask | Project/overdue_check.py:15-17 | every reminder carries the id and assignee of some task in the run |
| Quotes.ChoiceValues | product_group/models.py:59-64 | the choice values in declaration order, one per choice |
| Quotes.DefaultStatusIsFirstChoice | product_group/models.py:59-69 | the default status is the first of four distinct status values |
| Quotes.DefaultUnitIsFirstChoice | product_group/models.py:106-122 | the default unit is the first of four distinct unit values |
| Quotes.LineOf | product_group/models.py:121-136 | a stored item's amount is its quantity times its price per unit; unit and cost take their defaults when absent |
| Quotes.LinesOf | product_group/serializers.py:178-179 | one stored line per item entry, in order |
| Quotes.QuoteItem.constructor | product_group/models.py:133-136 | a created item holds exactly the line its data describes |
| Quotes.QuoteItem.Save | product_group/models.py:133-136 | saving recomputes the amount as quantity times price per unit |
| Quotes.Lines | product_group/serializers.py:156 | the items as values, one per item, in order |
| Quotes.SubTotalAppend | product_group/serializers.py:157 | the sub-total of two lists joined is the sum of their sub-totals |
| Quotes.TotalCostAppend | product_group/serializers.py:158 | the total cost of two lists joined is the sum of their total costs |
| Quotes.HoursTotalAppend | Project/models.py:68-71 | the hour total of two lists joined is the sum of their hour totals |
| Quotes.HoursTotalOnlyHours | Project/models.py:68-71 | items whose unit is not exactly "hours" add nothing to the hour total |
| Quotes.SubTotalNonNegative | product_group/serializers.py:157 | with non-negative prices every amount, and so the sub-total, is non-negative |
| Quotes.TaxOnlyAdds | product_group/serializers.py:161-164 | the total is the sub-total plus its tax percentage; zero tax adds nothing, and non-negative tax never lowers the total |
| Quotes.Quote.constructor | product_group/serializers.py:175 | a created quote holds its data, with defaults for status, tax and costs, zero totals and no items |
| Quotes.Quote.ApplyChanges | product_group/serializers.py:190 | every field present in the update is assigned; the rest, the totals and the items are kept |
| Quotes.CalculateTotals | product_group/serializers.py:153-169 | afterwards the stored sub-total, total and cost agree with the quote's items |
| Quotes.CreateItems | product_group/serializers.py:178-179 | the new items are fresh and hold exactly the lines of the entries, in order |
| Quotes.CreateQuote | product_group/serializers.py:171-184 | the new quote holds its data and one item per entry, and its totals agree with its items |
| Quotes.UpdateQuote | product_group/serializers.py:186-201 | the update is applied; the items are replaced only when new ones are given; the totals agree with the items afterwards |
| Pipeline.StageNamesAreStatuses | product_group/views.py:159 | the four stage names are the four status values, in order |
| Pipeline.InStage | product_group/views.py:160 | a stage holds exactly the quotes whose status equals the stage name ignoring case |
| Pipeline.PipelineData | product_group/views.py:147-179 | the stats are the count, the average and the sum of the amounts, with zero margin; each of the four stages lists its quotes with their count and sum |
| Pipeline.AtMostOneStage | product_group/views.py:159-160 | a status falls in at most one stage |
| Pipeline.StagesPartitionQuotes | product_group/views.py:151-166 | when every quote has one of the four statuses in some case, the stage counts add up to `total_quotes` and the stage sums to `total_sum` |
| Pipeline.UnknownStatusInNoStage | product_group/views.py:159-160 | a quote whose status is none of the four appears in no stage |
| Pipeline.ChoiceEntries | product_group/views.py:187 | one value/label entry per choice, in order |
| Pipeline.ChoiceEntriesRoundTrip | product_group/views.py:193 | the choice pairs can be read back from the entries |
| Queries.IExactExists | roles/serializers.py:73-78 | true exactly when some row other than the excluded one has the value as its name, ignoring case |
| Queries.IExactIgnoresLower | product_group/models.py:21-22 | lower-casing the value before an `__iexact` query changes nothing |
| Queries.OwnRowNeverClashes | roles/serializers.py:75-76 | with a row excluded, its own name never clashes, in any case |
| Queries.SameNameClashes | product_group/serializers.py:33-36 | without an exclusion, a row with the same name in another case clashes |
| ProductGroups.ProductGroup.Clean | product_group/models.py:20-23 | refused exactly when another group's name equals the stripped name ignoring case, with the case-insensitive message |
| ProductGroups.ProductGroup.Save | product_group/models.py:25-28 | the stored name is the old name stripped, which has no surrounding whitespace, and `__str__` shows it |
| ProductGroups.ProductGroup.constructor | product_group/models.py:7-8 | a new group has the given id and name |
| ProductGroups.ProductGroup.ToString | product_group/models.py:17-18 | `__str__` shows the group's name |
| ProductGroups.SaveTwiceIsSaveOnce | Project/product_group/models.py:24-27 | saving twice leaves the name as saving once |
| ProductGroups.CleanIgnoresCaseAndSpace | Project/product_group/models.py:19-22 | names that differ only in case and surrounding whitespace clean the same way |
| ProductGroups.ValidateProductGroupName | Project/product_group/serializers.py:15-18 | refused exactly when some group has the name ignoring case, with nothing excluded or stripped; otherwise the value is kept |
| ProductGroups.ResubmittedNameRefused | product_group/serializers.py:33-36 | on update, re-submitting the group's own current name is refused |
| ProductGroups.RenameGroupKey | product_group/serializers.py:21-27 | `product_group` takes the value of `product_group_name`, which disappears; every other key is kept |
| ProductGroups.ServiceRepresentation | product_group/serializers.py:78-82 | with a group, `product_group` becomes the group's name and every other key is kept; without one the data is unchanged |
| ProductGroups.RelatedName | Project/product_group/serializers.py:34-35 | null exactly when there is no related row, otherwise its name |
| ProductGroups.ProductService.constructor | product_group/models.py:49 | a new service is active unless said otherwise |
| Projects.Project.constructor | Project/models.py:18-28 | a new project holds its data, with no client and the default currency |
| Projects.Project.Save | Project/models.py:30-47 | a quotation's client becomes the project's client; the save is refused exactly when the end date is before the start date, and the row is written otherwise |
| Projects.ProjectBudget.constructor | Project/models.py:55-61 | a new budget uses quoted amounts unless said otherwise and takes the default currency when none is given |
| Projects.QuotedHours | Project/models.py:68-71 | the loop's sum is the total quantity of the quote's items whose unit is "hours" |
| Projects.ProjectBudget.ApplyQuotedAmounts | Project/models.py:63-74 | without a quotation it raises and changes nothing; otherwise the hours are the quote's hour items, the budget its total, the bills its two costs and the currency the project's |
| Projects.ValidateBudget | Project/serializers.py:16-23 | unless quoted amounts are used, a missing or zero hour total and then budget is refused with its "is required" message; otherwise the data is kept |
| Projects.ValidatorAndDefaultDisagree | Project/serializers.py:17 | data without `use_quoted_amounts` is refused by the serializer although the model defaults it to true |
| Projects.ValidateProjectDates | Project/serializers.py:56-63 | refused exactly when both dates are given and the end is before the start |
| Projects.DateChecksAgree | Project/models.py:45-46 | on complete dates the serializer and the model refuse exactly the same inputs |
| Projects.CreateProject | Project/serializers.py:41-55 | the project is created and saved unless its dates are out of order; a budget is created only for non-empty budget data, and quoted amounts are applied when it uses them |
| Rbac.CleanPermission | roles/models.py:79-84 | a code passes exactly when every character is alphanumeric or one of `._-` |
| Rbac.SafeCodesConcatenate | roles/models.py:81 | two passing codes joined by a dot pass |
| Rbac.ActivePermissionCodesMembership | roles/models.py:156-157 | a code is in the superuser set exactly when an active permission has it |
| Rbac.RoleCodesMembership | roles/models.py:159-168 | a code is collected exactly when an active role holds an active permission with it |
| Rbac.DeactivatingRoleShrinks | roles/models.py:159 | deactivating a role can only remove codes |
| Rbac.RbacUser.constructor | roles/models.py:131-142 | a new user has no permission cache |
| Rbac.RbacUser.GetAllPermissions | roles/models.py:144-170 | a cached set is returned unchanged; otherwise the computed codes are cached and returned |
| Rbac.RbacUser.HasRolePermission | roles/models.py:172-176 | an inactive user is refused without filling the cache; otherwise the answer is membership in the (now filled) cache |
| Permissions.NormalizeIdempotent | Project/roles/permission.py:23-24 | normalising twice is normalising once |
| Permissions.ResolvedCode | Project/roles/permission.py:38-49 | the code in force is the truthy map entry for the method, else the truthy `permission_code`, and never empty |
| Permissions.AdvancedGuards | Project/roles/permission.py:27-35 | a missing, unauthenticated or inactive user is refused with "Authentication required."; an active superuser passes before any code is read |
| Permissions.HasPermissionAdvanced | Project/roles/permission.py:26-73 | a missing, unauthenticated or inactive user is refused as unauthenticated whatever the view declares |
| Permissions.AdvancedDecision | Project/roles/permission.py:37-73 | for an active non-superuser: with a code in force, access exactly when the normalised code is held; else with codes, when any normalised code is held; else refused as not configured |
| Permissions.MapEntryOverrides | Project/roles/permission.py:45-49 | a truthy map entry decides regardless of `permission_code` and `permission_codes` |
| Permissions.NoMapEntryFallsBack | Project/roles/permission.py:46-52 | a method without a map entry is decided as if there were no map |
| Permissions.CodesIgnoredUnderCode | Project/roles/permission.py:52-62 | `permission_codes` is never read while a single code is in force |
| Permissions.CodeCaseAndSpaceIgnored | Project/roles/permission.py:53 | codes that normalise alike decide alike |
| Permissions.PlainDecision | roles/permission.py:13-35 | without a code everyone passes; with one, missing, unauthenticated or inactive users fail, superusers pass, and others need the code as given |
| Permissions.HasPermissionPlain | roles/permission.py:13-35 | with a code in force, only an authenticated, active user who is a superuser or holds that code passes |
| Permissions.ChecksCompared | roles/permission.py:13-35 | the two classes agree for authenticated active users on a normalised code; on a view without a code the plain one lets even an anonymous request through, where the advanced one refuses it, and an active non-superuser as not configured |
| RoleNames.ValidateRoleName | roles/serializers.py:66-80 | refused exactly when another role's name equals the stripped value ignoring case; an accepted name is the stripped value |
| RoleNames.KeepingOwnNamePasses | Project/roles/serializers.py:146-149 | on update, a role keeping its own name passes when no other role has it |
| RoleNames.PaddedCaseVariantCollides | Project/roles/serializers.py:144-152 | a name that another role already has, ignoring case, is still refused when sent with a space on each side (" Admin " against "admin") |
| RoleNames.AcceptedNameStable | Project/roles/serializers.py:144 | an accepted name is already stripped |
| Auth.CheckPasswordExact | Project/accounts/serializers.py:56 | a hash accepts exactly the password it was made from; the empty hash accepts nothing |
| Auth.FirstAccount | Project/accounts/serializers.py:46 | None exactly when no account matches ignoring case; otherwise the first matching row in the `Account` ordering (`first_name`, `last_name`) |
| Auth.FirstUser | Project/accounts/serializers.py:47 | None exactly when no user matches ignoring case; otherwise the first matching row by primary key |
| Auth.FirstAccountIsFirstMatch | Project/accounts/serializers.py:46-51 | `.first()` on the accounts answers the row that matches with no matching row before it |
| Auth.FirstUserIsFirstMatch | Project/accounts/serializers.py:47-52 | `.first()` on the users answers the row that matches with no matching row before it |
| Otp.PasswordResetOtp.constructor | accounts/models.py:48-58 | a new row has no code, is unused and unverified |
| Otp.PasswordResetOtp.MarkUsed | accounts/models.py:68-70 | the row is used afterwards |
| Otp.PasswordResetOtp.SetCode | accounts/models.py:72-73 | the stored hash accepts exactly the given code |
| Otp.PasswordResetOtp.VerifyCode | accounts/models.py:75-83 | true exactly for an unused, unexpired row whose hash accepts the code; only success sets `is_verified`, and nothing else changes |
| Otp.ExpiryBoundary | accounts/models.py:65-66 | not expired at the boundary itself, expired one second later, and expired from then on |
| Otp.PasswordResetOtp.Expired | accounts/models.py:65-66 | expired exactly when more than `minutes` minutes have passed since creation |
| Otp.Select | accounts/models.py:89-93 | exactly the rows of the user (unused when asked) created after the cutoff |
| Otp.ActiveFor | accounts/models.py:85-93 | exactly the user's unused rows created in the last 30 seconds |
| Otp.LatestOf | Project/accounts/serializers.py:151 | None exactly for no rows; otherwise a row no older than any other |
| Otp.ActiveIsUnexpiredAndUnused | accounts/models.py:65-93 | with the default settings an active row is the user's, unused and not expired |
| Otp.RawCode | accounts/models.py:97 | one decimal digit per draw, each the digit drawn |
| Otp.RawCodeInjective | accounts/models.py:97 | distinct draws give distinct codes |
| Otp.CreateForUser | accounts/models.py:95-101 | a fresh unused, unverified row whose hash accepts exactly the returned code of `length` digits |
| PasswordReset.Login | Project/accounts/serializers.py:33-57 | an empty identifier and then a short password are refused first. An identifier with '@' is looked up by gmail/email, any other by username. No match in either table answers "Email not registered" or "Username not found". Otherwise the first matching account, or without one the first matching user, logs in when the password checks, and "Invalid password" is answered when it does not |
| PasswordReset.LoginPrefersAccount | Project/accounts/serializers.py:46-52 | a matching account is used even when a user also matches |
| PasswordReset.PrefixedInjective | Project/accounts/serializers.py:93-108 | a throttle key determines its user |
| PasswordReset.ThrottleKeysDistinct | Project/accounts/serializers.py:93-108 | the cooldown, attempt and rate keys never coincide, for any two users |
| PasswordReset.ThrottleStep | Project/accounts/serializers.py:91-117 | the throttle changes only the requesting user's three keys |
| PasswordReset.ThrottleOrder | Project/accounts/serializers.py:92-117 | a live cooldown refuses with no change; 3 attempts start the cooldown, drop the counter and refuse; a live rate key refuses with no change; otherwise attempts go up by exactly one and the rate key is set for 60 s |
| PasswordReset.AttemptsNeverExceedThree | Project/accounts/serializers.py:99-113 | starting from at most 3 attempts, a request never leaves more than 3 |
| PasswordReset.OtherUserUnaffected | Project/accounts/serializers.py:93-117 | one user's request never changes another user's throttle |
| PasswordReset.FourthRequestRefused | Project/accounts/serializers.py:98-105 | three accepted requests at least 60 s apart, then a fourth, is refused and starts the 10-minute cooldown |
| PasswordReset.VerifyFormatFirst | Project/accounts/serializers.py:141-143 | a code that is not exactly 4 digits is refused before any lookup |
| PasswordReset.LatestOtpError | Project/accounts/serializers.py:175-187 | the newest active OTP is refused as expired first, then as used, then for a wrong code, and accepted exactly when it is unexpired, unused and its hash accepts the code |
| PasswordReset.VerifyDecision | Project/accounts/serializers.py:139-194 | an OTP answered as verified is one of the stored OTPs and belongs to the resolved user; the failure answers are stated by `VerifyFormatFirst`, `NoActiveOtpFallback` and `LatestOtpError` |
| PasswordReset.NoActiveOtpFallback | Project/accounts/serializers.py:145-172 | after the format check, an unregistered email is answered "Email not registered"; a user with no active OTP is answered "OTP has expired" when no OTP of the last ten minutes exists or the newest such OTP accepts the code, and "Invalid OTP" when it does not |
| PasswordReset.VerifySucceedsIff | Project/accounts/serializers.py:151-194 | verification succeeds exactly when the newest active OTP's hash accepts the code, and answers that OTP |
| PasswordReset.UsedAndExpiredChecksNeverFire | Project/accounts/serializers.py:176-182 | with the default settings "OTP already used" is never answered, and "OTP has expired" only when no active OTP exists |
| PasswordReset.ValidateNewPassword | Project/accounts/serializers.py:204-212 | mismatched passwords are refused first, then ones shorter than 8; an accepted password is kept |
| PasswordReset.ResettableOtps | Project/accounts/serializers.py:217 | exactly the verified, unused rows with the token |
| PasswordReset.ResetService.constructor | Project/accounts/serializers.py:199-228 | a new service has an empty cache, no OTPs and the given passwords |
| PasswordReset.ResetService.RequestOtp | Project/accounts/serializers.py:91-117 | the cache changes as `ThrottleStep` says; on success a new 4-digit OTP of the user is appended and its code returned |
| PasswordReset.ResetService.VerifyOtp | Project/accounts/serializers.py:139-194 | answers as the verify decision does; on success the chosen OTP becomes verified and its token is returned |
| PasswordReset.ResetService.ResetPassword | Project/accounts/serializers.py:214-228 | no resettable OTP, or more than one, is refused; an expired one is refused; otherwise the user's password becomes the new one, the OTP is used and the token no longer resets |
| PasswordReset.UseUpUnused | Project/accounts/serializers.py:263 | every OTP of the user ends up used, the others keep their used flag, and no verified flag or code hash changes |
| PasswordReset.ResetService.ResendOtp | Project/accounts/serializers.py:244-279 | the throttle applies without the rate key; on success all the user's unused OTPs are used up and the new one is the user's only unused OTP |
| LegacyAccounts.FirstGiven | accounts/serializers.py:43-48 | the first truthy candidate, or "" exactly when none is truthy |
| LegacyAccounts.AccountsMatching | accounts/serializers.py:63-66 | exactly the accounts whose column equals the value ignoring case |
| LegacyAccounts.UsersMatching | accounts/serializers.py:74-77 | exactly the users whose column equals the value ignoring case |
| LegacyAccounts.AsLookup | accounts/serializers.py:62-68 | `get` finds nothing for no match and the row for exactly one match, and raises for several |
| LegacyAccounts.AccountLookup | accounts/serializers.py:60-68 | one account by username is found first; several by username raise; with none by username, one by gmail is found and several raise; nothing is found exactly when neither column matches |
| LegacyAccounts.UserLookup | accounts/serializers.py:70-79 | one user by username is found first; several by username raise; with none by username, one by email is found and several raise; nothing is found exactly when neither column matches |
| LegacyAccounts.AccountsDecideLogin | accounts/serializers.py:60-89 | for a non-empty identifier and a password of 8 or more characters the account table decides first: a single account by username logs in when the password checks, even if another account matches by gmail; without one, a single account by gmail does; several rows in the column searched raise `MultipleObjectsReturned`; a wrong password answers "Enter the valid password" |
| LegacyAccounts.UsersDecideLogin | accounts/serializers.py:70-94 | only when no account matches are users searched, by username then email, with the same single-row, several-rows and password outcomes; when no user matches either, the answer is "Enter valid username/email" |
| LegacyAccounts.LegacyLogin | accounts/serializers.py:41-95 | the identifier is the first truthy candidate, stripped, and a missing password is empty; an empty identifier and a short password are refused before any lookup, a success matches the password, and the outcome is the authentication of that identifier and password |
| LegacyAccounts.UnknownIdentifierRefused | accounts/serializers.py:81-83 | an identifier that no account and no user carries in any looked-up column is refused as "Enter valid username/email" |
| LegacyAccounts.Authenticate | accounts/serializers.py:53-94 | for the stripped identifier and the password: an empty identifier, then a password under 8 characters, is refused; a success is an account matching by username or gmail, or, only when no account matched, a user matching by username or email, and the password matches it |
| LegacyAccounts.IdentifierTakesPrecedence | accounts/serializers.py:43-48 | a given `identifier` decides alone; later candidates are never read |
| LegacyAccounts.ValidateReset | accounts/serializers.py:196-215 | mismatched passwords are refused first, then passwords without 8 characters, an upper-case letter, a digit and a special character; an accepted password is kept unchanged |
| LegacyAccounts.PolicyExamples | accounts/serializers.py:204-212 | "password" is refused as weak and "Passw0rd!" is accepted |
| LegacyAccounts.LegacyPolicyIsStricter | accounts/serializers.py:204-212 | whatever this policy accepts, the newer reset validator accepts too |
| LegacyAccounts.ResetToken | accounts/serializers.py:217-226 | the header token when truthy, else the body token; refused exactly when neither is truthy |
| LegacyAccounts.LegacyCode | accounts/serializers.py:128 | for a draw in 0..9999, four digits that read back as the draw |
| LegacyAccounts.LegacyCodeInjective | accounts/serializers.py:298 | distinct draws give distinct codes |
| LegacyAccounts.ResendKeyIgnoresCase | accounts/serializers.py:291 | addresses that differ only in case share one rate key |
| LegacyAccounts.MarkedUsed | accounts/serializers.py:296 | the address's OTPs, in any case, are used afterwards; every other row is unchanged |
| LegacyAccounts.LegacyResendService.constructor | accounts/serializers.py:276-277 | a new service has an empty cache and no OTPs |
| LegacyAccounts.LegacyResendService.Resend | accounts/serializers.py:288-313 | a live rate key refuses with no change; otherwise the address's OTPs are used up and a new one is stored; the rate key is set for 60 s only when the mail went out |
| LegacyAccounts.ResendLeavesOneUsable | accounts/serializers.py:296-299 | after a resend the new OTP is the address's only unused one |
| ClientErrors.FieldMessage | Project/client/views.py:45-50 | a message containing "This field is required." becomes the field name, with underscores as spaces, lower-cased, plus " is required"; any other message is kept verbatim |
| ClientErrors.FormatErrors | Project/client/views.py:41-50 | the loop builds exactly the map the reference definition describes |
| ClientErrors.FormattedFields | Project/client/views.py:43-50 | exactly the fields with a non-empty message list appear, under their own names, each with its formatted first message |
| ClientErrors.RequiredMessageExample | Project/client/views.py:230-241 | "Poc_Email" with the required message becomes "poc email is required" |
| ClientErrors.RequiredMessageIsLowerWords | Project/client/views.py:288-290 | whatever the field's name, the rewritten "required" message holds no underscore and no upper-case letter |
| Poc.AnyEmail | client/serializers.py:133 | true exactly when another in-scope contact has the email ignoring case |
| Poc.AnyMobile | client/serializers.py:139 | true exactly when another in-scope contact has exactly the mobile number |
| Poc.ContactSerializer.constructor | client/serializers.py:100-104 | the company is required exactly when no contact is being updated |
| Poc.ContactSerializer.Company | client/serializers.py:116 | the data's company, else the updated contact's company, else none |
| Poc.ContactSerializer.Validate | client/serializers.py:111-144 | a given email already used in the company is refused first, then a given mobile number; the contact being updated is excluded; otherwise the data is returned unchanged |
| Poc.KeepingOwnDetailsPasses | client/serializers.py:129-130 | an update keeping the contact's own email and mobile passes when no other contact shares its company |
| Poc.OtherCompaniesIgnored | client/serializers.py:125 | contacts of other companies never affect the answer |
| Poc.EmailCaseIgnored | client/serializers.py:133-136 | "A@X.COM" clashes with a stored email that equals it ignoring case, and passes otherwise |

## Left out

- Timer pause, stop and state, timesheets and extra hours: these parts of the system are not part of this model.
- Redis connection setup, the Django ORM and persistence: stores are maps, and tables are sequences in their default queryset ordering.
- `order_by('-created_at').first()` among equal timestamps: the model picks the last in table order. The database order is unspecified.
- Email sending: it is a boolean parameter in the older resend flow. In the newer flows a failure would raise after the state changes, and the model does not raise.
- Randomness: drawn digits and the token UUID are parameters.
- Password hashing: salting and the one-way function are idealised. A hash accepts exactly the text it was made from.
- Clocks: time is a parameter. Timezone conversion (`Asia/Kolkata`) and the `otp_sent_at` text are left out.
- JWT decoding and generation: the socket's token resolver is a function parameter, and login returns the principal instead of tokens.
- Floating point in the overdue job and the pipeline sums, and the rounding of `DecimalField` to 2 places: amounts are exact reals.
- Python's `str.lower`, `isalnum`, `isdigit` and regex `\d` are modelled on ASCII characters only. `strip` uses the Unicode whitespace set.
- Permissions.AdvancedDecision: the message listing the codes missed under `permission_codes` is not compared as text, because Python set-to-list order is unspecified.
- The `gmail` field validators and the registered-email lookups of the OTP request, verify and resend serializers: the model takes the resolved user as input.
- The reset-token lookup and password update of the older `ResetPasswordSerializer.save` (accounts/serializers.py:228-274): only its token source is modelled. The rest targets OTP fields (`gmail`, `code`) that the stored model does not have.
- The race between a cache read and the following cache write in the throttles: each request is one atomic step.
- Consumers.Receive: a "start" is one atomic step. `receive_json` reads the timer with `get_active_timer` and writes it later with `set_active_timer` without a lock, so two sockets of the same user in different workers can both start a timer; the model does not capture that interleaving.
- `get_modified_by` in both product-group serializers: never called, because `modified_by` is declared as a `StringRelatedField`, which answers `str()` of the account; it is not modelled.
- Django's field-level validation (required fields, `CharField` trimming, foreign-key existence): the serializers' own `validate` methods are modelled on the data they receive.
- LegacyAccounts.LegacyLogin: the returned tokens and the `user` dictionary are left out; the result is the row that logs in.
- LegacyAccounts.Authenticate, LegacyAccounts.LegacyLogin, PasswordReset.Login and LegacyAccounts.LegacyResendService.Resend: `accounts/models.py` gives `Account` an `email` field and no `gmail`, and `PasswordResetOTP` has no `gmail` or `code` field, so these lookups and writes would fail against that model. The model assumes an `Account.gmail` field, as `Project/accounts/models.py` declares it, and the OTP row's `gmail` and `code` fields that the flows write.
- Project/accounts/authentication.py, the CRUD views, URL routing, admin and the Tracker app are not part of this model.

## Observations

- With the default settings the active OTP window (30 seconds) is shorter than the OTP expiry (2 minutes). So verification never answers "OTP already used", and answers "OTP has expired" only when no OTP is active (`PasswordReset.UsedAndExpiredChecksNeverFire`).
- The budget serializer refuses data that leaves out `use_quoted_amounts` and the amounts, although the model field defaults `use_quoted_amounts` to true (`Projects.ValidatorAndDefaultDisagree`).
- An empty task id is stored by "start" but is falsy, so the next "start" overwrites it while `has_active_timer` reports a timer (`Consumers.EmptyTaskIdNotRunning`).
