/**
 * `DiscordNotifier`: which URL the session summary is posted to. The
 * webhook URL wins; the general notification URL is a fallback only when it
 * is an https URL. The HTTP post itself is reduced to the request it would
 * send.
 */
module DiscordNotifier {
  import opened Wrappers
  import opened Text
  import opened UpdateResults
  import NotificationComposer

  /** `NotificationOptions`: three nullable strings. */
  datatype NotificationOptions = NotificationOptions(
    notificationUrl: Option<string>,
    discordWebhookUrl: Option<string>,
    discordMessageTemplate: Option<string>)

  const HttpsScheme: string := "https://"

  /** The URL to post to, or null when no usable URL is configured. */
  function ResolveWebhookUrl(o: NotificationOptions): (r: Option<string>)
    ensures r == o.discordWebhookUrl || r == o.notificationUrl || r == None
    ensures r.Some? ==> !IsBlank(r.value)
  {
    if !IsNullOrWhiteSpace(o.discordWebhookUrl) then o.discordWebhookUrl
    else if IsNullOrWhiteSpace(o.notificationUrl) then None
    else if StartsWithIgnoreCase(o.notificationUrl.value, HttpsScheme) then o.notificationUrl
    else None
  }

  /** The message body and the URL one `NotifySessionAsync` call posts. */
  datatype Post = Post(url: string, content: string)

  /** Nothing is posted unless a URL resolves; the body is the composed summary. */
  function SessionPost(o: NotificationOptions, session: UpdateSessionResult): (p: Option<Post>)
    ensures p.Some? <==> ResolveWebhookUrl(o).Some?
    ensures p.Some? ==> p.value.url == ResolveWebhookUrl(o).value
  {
    var url := ResolveWebhookUrl(o);
    if IsNullOrWhiteSpace(url) then None
    else Some(Post(url.value, NotificationComposer.Render(NotificationComposer.Lines(session))))
  }

  // ------------------------------------------------------------- properties

  /** A non-blank webhook URL is chosen whatever the notification URL holds. */
  lemma WebhookWins(o: NotificationOptions)
    requires !IsNullOrWhiteSpace(o.discordWebhookUrl)
    ensures ResolveWebhookUrl(o) == o.discordWebhookUrl
  {
  }

  /**
   * Without a webhook URL the notification URL is chosen exactly when it is
   * present, non-blank and starts with "https://" in any letter case.
   */
  lemma FallbackOnlyForHttps(o: NotificationOptions)
    requires IsNullOrWhiteSpace(o.discordWebhookUrl)
    ensures ResolveWebhookUrl(o).Some? <==>
              o.notificationUrl.Some? && StartsWithIgnoreCase(o.notificationUrl.value, HttpsScheme)
    ensures ResolveWebhookUrl(o).Some? ==> ResolveWebhookUrl(o) == o.notificationUrl
  {
    if o.notificationUrl.Some? && StartsWithIgnoreCase(o.notificationUrl.value, HttpsScheme) {
      HttpsIsNotBlank(o.notificationUrl.value);
    }
  }

  /** A string starting with "https://" in any case has a letter first. */
  lemma HttpsIsNotBlank(s: string)
    requires StartsWithIgnoreCase(s, HttpsScheme)
    ensures !IsBlank(s)
  {
    assert ToLower(HttpsScheme)[0] == 'h';
    assert LowerChar(s[0]) == 'h';
    LowerCharOfLetter(s[0]);
  }

  /** The message a post carries is the composed session summary. */
  lemma PostCarriesSummary(o: NotificationOptions, session: UpdateSessionResult)
    requires SessionPost(o, session).Some?
    ensures SessionPost(o, session).value.content == NotificationComposer.Render(NotificationComposer.Lines(session))
    ensures |NotificationComposer.Lines(session)| == 2 + UpdatedCount(session) + FailedCount(session)
  {
    NotificationComposer.LineCount(session);
  }
}
