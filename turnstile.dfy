/**
 * The `Turnstile` class: configuration checked and fixed at construction,
 * widget markup ids, and server-side verification of a token.
 */
module Turnstile {
  import opened Php
  import opened Wrappers
  import opened WidgetOptions
  import opened ErrorText
  import opened SiteVerify

  /** Why construction throws. */
  datatype ConfigError = IroOptUnavailable | SitekeyNotConfigured | SecretNotConfigured

  /** The exception message for each construction failure. */
  function ConfigErrorMessage(e: ConfigError): string {
    match e
    case IroOptUnavailable => "Required WordPress function iro_opt is not available."
    case SitekeyNotConfigured => "Turnstile sitekey is not configured."
    case SecretNotConfigured => "Turnstile secret is not configured."
  }

  /**
   * What the constructor reads from WordPress: whether `iro_opt` exists, the
   * options `turnstile_sitekey`, `turnstile_secret` and `theme_skin`, and the
   * current locale.
   */
  datatype Environment = Environment(
    hasIroOpt: bool,
    sitekeyOption: Value,
    secretOption: Value,
    themeSkinOption: Value,
    locale: string)

  /** The ids and data attributes of the markup `html` emits (inline styles are not modelled). */
  datatype Widget = Widget(
    errorDivId: string,   // id of the error div
    widgetId: string,     // id of the .cf-turnstile div
    sitekey: string,      // data-sitekey
    theme: string,        // data-theme
    language: string,     // data-language
    action: string,       // data-action
    callback: string,     // data-callback
    errorIdRef: string)   // data-error-id

  const WidgetIdPrefix: string := "turnstile-"
  const ErrorIdPrefix: string := "turnstile-error-"

  /** The id of the widget div for `action`, given the attribute escaper `esc`. */
  function WidgetId(esc: string -> string, action: string): string {
    WidgetIdPrefix + esc(action)
  }

  /** The id of the error div for `action`. */
  function ErrorId(esc: string -> string, action: string): string {
    ErrorIdPrefix + esc(action)
  }

  class Turnstile {
    const sitekey: Value
    const secret: Value
    const theme: string
    const lang: string

    /** What construction guarantees about every object. */
    ghost predicate Valid() {
      !Empty(sitekey) && !Empty(secret) && theme in ValidThemes && lang in SupportedLangs
    }

    /**
     * The field assignments of `__construct`, reached only once its guards
     * have passed (see `Construct`).
     */
    constructor (env: Environment)
      requires env.hasIroOpt && !Empty(env.sitekeyOption) && !Empty(env.secretOption)
      ensures Valid()
      ensures sitekey == env.sitekeyOption && secret == env.secretOption
      ensures theme == GetTheme(env.themeSkinOption) && lang == GetLang(env.locale).lang
    {
      sitekey := env.sitekeyOption;
      secret := env.secretOption;
      theme := GetTheme(env.themeSkinOption);
      lang := GetLang(env.locale).lang;
    }

    /**
     * `html($action)`: the error div and the widget div for `action`, wired
     * together through `data-error-id`. `esc` stands for `esc_attr`.
     */
    function Html(esc: string -> string, action: string := "login"): (w: Widget)
      ensures w.widgetId == WidgetId(esc, action) && w.errorDivId == ErrorId(esc, action)
      ensures w.errorIdRef == w.errorDivId
      ensures w.widgetId != w.errorDivId
      ensures w.action == esc(action)
      ensures w.sitekey == esc(ToString(sitekey)) && w.theme == esc(theme) && w.language == esc(lang)
      ensures w.callback == "onTurnstileSuccess"
    {
      var id := WidgetIdPrefix + esc(action);
      var errorId := ErrorIdPrefix + esc(action);
      assert |id| < |errorId|;
      Widget(errorId, id, esc(ToString(sitekey)), esc(theme), esc(lang), esc(action),
             "onTurnstileSuccess", errorId)
    }

    /**
     * `verify($token)`. With an empty secret nothing is sent and the outcome
     * is `missing-input-secret`. Otherwise the form holds `secret`,
     * `response` and, when the client address is not empty, `remoteip`; the
     * service's `reply` to it is then classified.
     */
    method Verify(token: string, remoteAddr: Value, reply: Reply)
      returns (request: Option<Form>, v: Verification)
      ensures request.None? <==> Empty(secret)
      ensures Empty(secret) ==> v == Verification(FailureOutcome("missing-input-secret"), [])
      ensures request.Some? ==>
        Keys(request.value) == ["secret", "response"] + (if Empty(remoteAddr) then [] else ["remoteip"])
        && Lookup(request.value, "secret") == Some(secret)
        && Lookup(request.value, "response") == Some(Str(token))
        && Lookup(request.value, "remoteip") == (if Empty(remoteAddr) then None else Some(remoteAddr))
      ensures !Empty(secret) ==> v == Classify(reply)
    {
      if Empty(secret) {
        return None, Verification(FailureOutcome("missing-input-secret"), []);
      }
      var body: Form := [("secret", secret), ("response", Str(token))];
      if !Empty(remoteAddr) {
        body := body + [("remoteip", remoteAddr)];
      }
      request := Some(body);
      v := Classify(reply);
    }
  }

  /**
   * `new Turnstile()`: fails if `iro_opt` is missing, then if the site key is
   * empty, then if the secret is empty; otherwise fixes the four fields. The
   * log holds what language negotiation wrote.
   */
  method Construct(env: Environment) returns (r: Result<Turnstile, ConfigError>, log: seq<string>)
    ensures !env.hasIroOpt ==>
      (r == Failure(IroOptUnavailable)
       && ConfigErrorMessage(r.error) == "Required WordPress function iro_opt is not available.")
    ensures env.hasIroOpt && Empty(env.sitekeyOption) ==>
      (r == Failure(SitekeyNotConfigured)
       && ConfigErrorMessage(r.error) == "Turnstile sitekey is not configured.")
    ensures env.hasIroOpt && !Empty(env.sitekeyOption) && Empty(env.secretOption) ==>
      (r == Failure(SecretNotConfigured)
       && ConfigErrorMessage(r.error) == "Turnstile secret is not configured.")
    ensures r.Success? <==> env.hasIroOpt && !Empty(env.sitekeyOption) && !Empty(env.secretOption)
    ensures r.Failure? ==> log == []
    ensures r.Success? ==>
      fresh(r.value) && r.value.Valid()
      && r.value.sitekey == env.sitekeyOption && r.value.secret == env.secretOption
      && r.value.theme == GetTheme(env.themeSkinOption) && r.value.lang == GetLang(env.locale).lang
      && log == GetLang(env.locale).log
  {
    if !env.hasIroOpt {
      return Failure(IroOptUnavailable), [];
    }
    if Empty(env.sitekeyOption) {
      return Failure(SitekeyNotConfigured), [];
    }
    if Empty(env.secretOption) {
      return Failure(SecretNotConfigured), [];
    }
    var t := new Turnstile(env);
    r := Success(t);
    log := GetLang(env.locale).log;
  }

  /** No two construction failures throw the same message. */
  lemma ConfigErrorMessagesDistinct(e1: ConfigError, e2: ConfigError)
    ensures ConfigErrorMessage(e1) == ConfigErrorMessage(e2) <==> e1 == e2
  {
  }

  /** The same action always gives the same ids, and two actions share an id exactly when they escape alike. */
  lemma IdsDetermineEscapedAction(esc: string -> string, a: string, b: string)
    ensures WidgetId(esc, a) == WidgetId(esc, b) <==> esc(a) == esc(b)
    ensures ErrorId(esc, a) == ErrorId(esc, b) <==> esc(a) == esc(b)
  {
    if WidgetId(esc, a) == WidgetId(esc, b) {
      assert esc(a) == WidgetId(esc, a)[|WidgetIdPrefix|..];
      assert esc(b) == WidgetId(esc, b)[|WidgetIdPrefix|..];
    }
    if ErrorId(esc, a) == ErrorId(esc, b) {
      assert esc(a) == ErrorId(esc, a)[|ErrorIdPrefix|..];
      assert esc(b) == ErrorId(esc, b)[|ErrorIdPrefix|..];
    }
  }

  /**
   * Ids of different actions can collide on one page: the widget id of `a`
   * is the error id of `b` exactly when `a` escapes to "error-" followed by
   * the escape of `b` (for instance `error-login` and `login`).
   */
  lemma WidgetAndErrorIdsCollideIff(esc: string -> string, a: string, b: string)
    ensures WidgetId(esc, a) == ErrorId(esc, b) <==> esc(a) == "error-" + esc(b)
  {
    assert ErrorIdPrefix == WidgetIdPrefix + "error-";
    if WidgetId(esc, a) == ErrorId(esc, b) {
      assert esc(a) == WidgetId(esc, a)[|WidgetIdPrefix|..];
      assert ErrorId(esc, b)[|WidgetIdPrefix|..] == "error-" + esc(b);
    }
  }

  /** The fixed codes built by `verify` itself have table entries. */
  lemma SyntheticCodeMessages()
    ensures ParseError(["missing-input-secret"]) == "Missing server configuration"
    ensures ParseError(["api_failure"]) == "Unable to connect to verification service"
    ensures ParseError(["invalid_response"]) == "Verification service returned invalid response"
  {
  }

  /** Of the HTTP error codes, only those for 400, 429 and 500 have a table entry. */
  lemma HttpErrorCodeTabledIff(status: int)
    ensures HttpErrorCode(status) in Messages <==> status == 400 || status == 429 || status == 500
  {
    var code := HttpErrorCode(status);
    var digits := IntToString(status);
    assert code == "http_error_" + digits;
    assert IntToString(400) == "400" by {
      assert NatToString(40) == "40" by { assert NatToString(4) == "4"; }
    }
    assert IntToString(429) == "429" by {
      assert NatToString(42) == "42" by { assert NatToString(4) == "4"; }
    }
    assert IntToString(500) == "500" by {
      assert NatToString(50) == "50" by { assert NatToString(5) == "5"; }
    }
    assert status == 400 ==> code == "http_error_400";
    assert status == 429 ==> code == "http_error_429";
    assert status == 500 ==> code == "http_error_500";
    if code in Messages {
      TabledHttpCodes(code);
      assert digits == code[11..];
      IntToStringInjective(status, 400);
      IntToStringInjective(status, 429);
      IntToStringInjective(status, 500);
    }
  }
}
