# Turnstile verification for a WordPress theme, in Dafny

This project models the `Turnstile` class of the Sakurairo WordPress theme
(`inc/classes/Turnstile.php`). The class is the server side of Cloudflare
Turnstile's siteverify flow:

- its constructor reads the site key, the secret, the skin and the locale, and
  refuses an unconfigured site key or secret;
- `getTheme` and `getLang` resolve the widget's theme and language;
- `html` emits the widget and error placeholders for an action;
- `verify` posts a token to the siteverify endpoint and turns the reply into an
  outcome object;
- `parseError` renders error codes as one human-readable line.

Modules, one per concern of the class:

- `Php` (`php.dfy`): the PHP semantics the class relies on. This covers
  `empty()`, the `(string)` cast, integer-to-decimal conversion, and PHP 8's
  loose `==` against a lower-case word, which non-strict `in_array` uses.
- `WidgetOptions` (`widget_options.dfy`): `getTheme` and `getLang`.
- `ErrorText` (`error_text.dfy`): `parseError` and its 12-entry message table.
- `SiteVerify` (`site_verify.dfy`): decoded JSON values and the HTTP reply as an
  abstract input. It also has the classifier that is the decision logic of
  `verify`, and the POST form.
- `Turnstile` (`turnstile.dfy`): the class. Its four fields are `const`, so they
  cannot change after construction. The Dafny constructor performs the field
  assignments of `__construct`. The throwing guards run in `Construct`, which
  returns either the new object or the `ConfigError` the PHP constructor would
  throw.
- `Wrappers` (`wrappers.dfy`): `Option` and `Result`.

WordPress collaborators are parameters:

- `iro_opt`, `function_exists('iro_opt')` and `get_locale` become the fields of
  `Environment`.
- `esc_attr` is a function argument `esc` of `Html`.
- `__` is the identity on the English strings.
- `error_log` output is returned as a list of lines.
- The reply to `wp_remote_post` is the input `Reply`. It is either a transport
  error, or a status with the body as decoded by `json_decode`.

The class does no case folding when it negotiates the language. A locale is
hyphenated and matched exactly, so `zh_CN` gives `zh`, not `zh-cn`. The model
follows the code in this.

## Model

| member | source | states |
|---|---|---|
| Turnstile.Construct | inc/classes/Turnstile.php:20-34 | Guards run in order: no `iro_opt`, then empty site key (whatever the secret), then empty secret. Success iff all three pass. Then the object is fresh, satisfies `Valid()`, holds the configured key and secret and the resolved theme and language. Only success logs, and only what language negotiation logged |
| Turnstile.Turnstile.constructor | inc/classes/Turnstile.php:24-33 | The four fields are set from the options, `GetTheme` and `GetLang`. They are `const`, so they never change. Every object has non-empty key and secret, a valid theme and a supported language |
| Turnstile.Turnstile.Html | inc/classes/Turnstile.php:42-48 | Widget id is `turnstile-` + escaped action; error id is `turnstile-error-` + escaped action. The two ids always differ. `data-error-id` equals the error div's id. `data-action` is the escaped action. `data-sitekey`, `data-theme` and `data-language` are the escaped fields. The callback is `onTurnstileSuccess`. The action defaults to `login` |
| Turnstile.ConfigErrorMessage | inc/classes/Turnstile.php:22-30 | The text each construction failure throws. `Construct`'s ensures tie every failure to its text, and `ConfigErrorMessagesDistinct` shows no two failures share a text |
| Turnstile.ConfigErrorMessagesDistinct | inc/classes/Turnstile.php:22-30 | Two failures throw the same message iff they are the same failure |
| Turnstile.WidgetId | inc/classes/Turnstile.php:43 | The widget div's id. `IdsDetermineEscapedAction` and `WidgetAndErrorIdsCollideIff` state its properties |
| Turnstile.ErrorId | inc/classes/Turnstile.php:44 | The error div's id. `IdsDetermineEscapedAction` and `WidgetAndErrorIdsCollideIff` state its properties |
| SiteVerify.Classify | inc/classes/Turnstile.php:243-260 | The decision logic of `verify` after the request. `ClassifyShape`, `ClassifyOrder` and `SuccessComesFromService` state its properties |
| SiteVerify.Truthy | inc/classes/Turnstile.php:255 | PHP truthiness of the decoded body (objects always true). `ClassifyShape` and `ClassifyOrder` use it to decide `invalid_response` |
| ErrorText.Message | inc/classes/Turnstile.php:290 | The message for one code. `MessageIsTabledIff`, `UnknownMessageKeepsCode`, `TabledHttpCodes` and `MessageLongerThanUnknown` state its properties |
| ErrorText.Join | inc/classes/Turnstile.php:289 | `implode`. `JoinStartsWithFirst` and `JoinAppend` state its properties |
| ErrorText.ParseError | inc/classes/Turnstile.php:269-291 | `parseError`. `ParseErrorUnknownIff`, `ParseErrorSingle`, `ParseErrorAppend`, `ParseErrorKeepsDuplicates` and `ParseErrorExamples` together fix its result for every list |
| WidgetOptions.GetLang | inc/classes/Turnstile.php:202-218 | `getLang`. `GetLangSupported`, `GetLangPrecedence`, `GetLangLogsOnlyOnFallback`, `GetLangIsPrefixOrDefault` and `GetLangIdempotent` state its properties |
| Php.Empty | inc/classes/Turnstile.php:26-29 | PHP `empty()`: null, false, 0, `""` and `"0"`. It is also used for the guards at lines 227 and 234. `Construct`'s and `Verify`'s ensures are stated in its terms |
| Php.LooseEqualsWord | inc/classes/Turnstile.php:194 | PHP 8 loose `==` against a lower-case word. `LooseEqualsWordCases` and `IntNeverEqualsWord` state its properties |
| Php.LooseInArray | inc/classes/Turnstile.php:194 | Non-strict `in_array` over lower-case words. `ThemeAsWrittenAcceptsTrue` and `ThemeAsWrittenAgreesExceptTrue` state what it gives for the theme list |
| Php.ToString | inc/classes/Turnstile.php:48 | The `(string)` cast `esc_attr` applies to the site key. `Html`'s ensures state `data-sitekey` in its terms |
| Turnstile.IdsDetermineEscapedAction | inc/classes/Turnstile.php:43-44 | The same action gives the same ids. Two actions share a widget id (or an error id) iff their escapes are equal |
| Turnstile.WidgetAndErrorIdsCollideIff | inc/classes/Turnstile.php:43-44 | The widget id of `a` equals the error id of `b` iff `esc(a)` is `error-` + `esc(b)`, as for `error-login` and `login` |
| Turnstile.Turnstile.Verify | inc/classes/Turnstile.php:226-260 | No request is made iff the secret is empty; then the outcome is `missing-input-secret` with nothing logged. Otherwise the form's keys are `secret`, `response`, plus `remoteip` exactly when the client address is non-empty, each with its value, and the outcome and log are the classification of the reply |
| Turnstile.SyntheticCodeMessages | inc/classes/Turnstile.php:271-279 | The codes `verify` builds itself (`missing-input-secret`, `api_failure`, `invalid_response`) render as their table messages |
| Turnstile.HttpErrorCodeTabledIff | inc/classes/Turnstile.php:280-282 | An `http_error_<status>` code has a table entry iff the status is 400, 429 or 500 |
| SiteVerify.FailureOutcome | inc/classes/Turnstile.php:245 | A locally built outcome is not a success and carries exactly the one given error code |
| SiteVerify.HttpErrorCode | inc/classes/Turnstile.php:251 | A non-200 status is reported under a code starting with `http_error_` |
| SiteVerify.ClassifyShape | inc/classes/Turnstile.php:243-260 | A 200 reply with a truthy body is returned verbatim, logging nothing. Every other reply gives a failed outcome with exactly one error code and exactly one log line |
| SiteVerify.ClassifyOrder | inc/classes/Turnstile.php:243-258 | The checks run in order. Transport error gives `api_failure`. Otherwise a non-200 status gives `http_error_<status>`. Otherwise a falsy body gives `invalid_response` |
| SiteVerify.SuccessComesFromService | inc/classes/Turnstile.php:243-260 | An outcome is a success iff the service answered 200 with a body whose own `success` is true. Success is never inferred from the transport |
| SiteVerify.HttpErrorCodeInjective | inc/classes/Turnstile.php:251 | Two statuses give the same error code iff they are equal |
| SiteVerify.SyntheticCodesDistinct | inc/classes/Turnstile.php:228-257 | An `http_error_` code never coincides with `api_failure`, `invalid_response` or `missing-input-secret` |
| ErrorText.MessagesOf | inc/classes/Turnstile.php:289-291 | One message per code, in input order: message `k` is the message for code `k` |
| ErrorText.MessageIsTabledIff | inc/classes/Turnstile.php:270-290 | A code is in the table iff its message is not of the form `Unknown error: …` |
| ErrorText.UnknownMessageKeepsCode | inc/classes/Turnstile.php:290 | For an untabled code, the code can be read back after the `Unknown error: ` prefix |
| ErrorText.TabledHttpCodes | inc/classes/Turnstile.php:270-283 | The only tabled `http_error_` codes are those for 400, 429 and 500 |
| ErrorText.MessageLongerThanUnknown | inc/classes/Turnstile.php:270-290 | Every per-code message is longer than the bare `Unknown error` |
| ErrorText.MessagesOfAppend | inc/classes/Turnstile.php:289-291 | The messages of a concatenation of code lists are the concatenation of their messages |
| ErrorText.JoinStartsWithFirst | inc/classes/Turnstile.php:289 | A joined non-empty list begins with its first part |
| ErrorText.JoinAppend | inc/classes/Turnstile.php:289 | Joining `a + b` is the join of `a`, the separator, then the join of `b` |
| ErrorText.ParseErrorUnknownIff | inc/classes/Turnstile.php:285-291 | The result is `Unknown error` exactly when the code list is empty |
| ErrorText.ParseErrorSingle | inc/classes/Turnstile.php:289-291 | One code renders as exactly its message |
| ErrorText.ParseErrorAppend | inc/classes/Turnstile.php:289-291 | For non-empty lists, `parseError(a + b)` is `parseError(a)`, `", "`, then `parseError(b)`, so order is kept |
| ErrorText.ParseErrorKeepsDuplicates | inc/classes/Turnstile.php:289-291 | A repeated code is reported twice |
| ErrorText.ParseErrorExamples | inc/classes/Turnstile.php:269-291 | `[]` gives `Unknown error`; `invalid-input-response` gives its message; an unknown code gives `Unknown error: <code>` |
| WidgetOptions.GetThemeAsWritten | inc/classes/Turnstile.php:191-195 | As written, the result is the configured value itself or `auto` |
| WidgetOptions.ThemeAsWrittenAcceptsTrue | inc/classes/Turnstile.php:194 | As written, the configured value `true` passes the loose whitelist and comes back as a boolean, not a theme name |
| WidgetOptions.GetTheme | inc/classes/Turnstile.php:191-195 | The result is always `light`, `dark` or `auto`. It is the configured string exactly when that string is one of them; otherwise it is `auto` |
| WidgetOptions.ThemeAsWrittenAgreesExceptTrue | inc/classes/Turnstile.php:191-195 | The code as written agrees with `GetTheme` on every configured value except `true` |
| WidgetOptions.Hyphenate | inc/classes/Turnstile.php:204 | Same length as the locale. Every `_` becomes `-` and every other character is kept |
| WidgetOptions.PrimarySubtag | inc/classes/Turnstile.php:212 | A hyphen-free prefix of its input that is either all of it or stops at the first `-` |
| WidgetOptions.GetLangSupported | inc/classes/Turnstile.php:202-218 | The negotiated language is always one of the 20 supported ones |
| WidgetOptions.GetLangPrecedence | inc/classes/Turnstile.php:209-217 | The hyphenated locale wins if supported, else its primary subtag if supported. The result is `en` with a log line iff neither is supported |
| WidgetOptions.GetLangLogsOnlyOnFallback | inc/classes/Turnstile.php:209-217 | At most one log line, and exactly one iff both lookups fail |
| WidgetOptions.GetLangIsPrefixOrDefault | inc/classes/Turnstile.php:202-218 | The result is a prefix of the hyphenated locale ending at a hyphen or at its end, or it is `en` after one logged fallback |
| WidgetOptions.HyphenateNoUnderscore | inc/classes/Turnstile.php:204 | A string without `_` is unchanged by the replacement |
| WidgetOptions.GetLangIdempotent | inc/classes/Turnstile.php:202-218 | Negotiating an already negotiated language returns it unchanged and logs nothing |
| WidgetOptions.GetLangIsCaseSensitive | inc/classes/Turnstile.php:204-214 | `zh_CN` negotiates to `zh`, silently, because matching is case-sensitive |
| WidgetOptions.GetLangLowerCaseTag | inc/classes/Turnstile.php:204-210 | `zh_cn` negotiates to `zh-cn` |
| WidgetOptions.GetLangUnsupportedExample | inc/classes/Turnstile.php:212-217 | `xx_YY` falls back to `en` and logs `Unsupported locale: xx_YY, falling back to 'en'` |
| Php.NatToString | inc/classes/Turnstile.php:251 | The decimal rendering is non-empty, all digits, with no leading zero |
| Php.NatToStringValue | inc/classes/Turnstile.php:251 | Reading the digits back gives the number |
| Php.NatToStringInjective | inc/classes/Turnstile.php:251 | Different numbers render differently |
| Php.IntToString | inc/classes/Turnstile.php:251 | The rendering ends in a digit and is digits with an optional leading `-` |
| Php.IntToStringInjective | inc/classes/Turnstile.php:251 | Different integers render differently |
| Php.IntNeverEqualsWord | inc/classes/Turnstile.php:194 | Under PHP 8 loose `==`, an integer never equals a lower-case word |
| Php.LooseEqualsWordCases | inc/classes/Turnstile.php:194 | A value loosely equals a lower-case word iff it is that string or `true` |

## Findings

| source | as written | input that shows it | evidently intended | confidence | as-written member | corrected member |
|---|---|---|---|---|---|---|
| inc/classes/Turnstile.php:194 | non-strict `in_array` of the `theme_skin` option against the three theme names, returning the option itself on a match | `theme_skin` set to boolean `true`: PHP's `true == 'light'` holds, so the theme field becomes `true` (rendered `data-theme="1"`) | only one of `light`, `dark`, `auto` is ever returned (the method's doc comment says so) | medium; not executed | WidgetOptions.ThemeAsWrittenAcceptsTrue | WidgetOptions.GetTheme |

The class model (`Turnstile.Turnstile.constructor`) uses the corrected `GetTheme`.
`WidgetOptions.ThemeAsWrittenAgreesExceptTrue` shows that this input is the only
one on which the two differ.

## Left out

- `Turnstile::script()` (client-side JavaScript) is not modelled. It covers DOM lookups, polling for the API, the 10-second load timeout and animations, all asynchronous browser behaviour.
- `404.php` is not part of this model. It is a presentation template with no server logic.
- The file-level output buffering (`ob_start`/`ob_end_clean`) is not modelled. It has no functional content.
- The HTTP call and JSON parsing are not modelled. The reply is an input, independent of the form sent, so the relation between a token and the service's answer is not captured. Also not modelled: the 30-second timeout, the user-agent string and the endpoint URL.
- `esc_attr` is not modelled; it is a function argument. Because it is not injective, distinct actions are only shown to give distinct ids when their escapes differ.
- `__` (translation) is taken as the identity.
- `error_log` is not called; each operation returns its log lines instead.
- Decoded JSON numbers are integers only. Floats (where `0.0` is falsy) are not modelled.
- Php.Value: option values (`turnstile_sitekey`, `turnstile_secret`, `theme_skin`) and `$_SERVER['REMOTE_ADDR']` are limited to null, bool, int and string. Floats and arrays are not modelled, so neither are `empty(0.0)`, `empty([])`, nor the `(string)` cast of a float or an array inside `esc_attr`.
- Turnstile.Construct: for `theme_skin` set to boolean `true`, the object holds `auto` (from the corrected `GetTheme`), where the program holds `true` and renders `data-theme="1"` (see Findings).
- Turnstile.Turnstile.constructor: its `Valid()` promise of a theme among `light`, `dark`, `auto` holds for the corrected `GetTheme`. It does not hold for the program when `theme_skin` is `true`.
- JSON objects are maps: field order and duplicate keys are not modelled.
- SiteVerify.HttpErrorCode: the status is an `int`. The empty string that `wp_remote_retrieve_response_code` returns for a malformed response is not modelled.
- Php.LooseEqualsWord: gives PHP 8 semantics, and only against lower-case words. PHP 7, where `0 == 'light'` also holds, is not modelled.
- The inline `style` attributes of `html` are not modelled, nor the exact markup string; only the ids and data attributes are.
- The language is not lower-cased before matching, because the code does not lower-case it.
