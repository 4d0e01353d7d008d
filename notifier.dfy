/** `send_telegram`, `send_mail` and `notify`: which requests the two
    channels make and what is reported. The HTTP POST itself is not
    modelled: its success or failure is an input. */
module Notifier {
  import opened Optional
  import opened Text

  /** The channel settings read from the environment at start-up. */
  datatype Config = Config(
    telegramBotToken: Option<string>,
    telegramChatId: Option<string>,
    brevoApiKey: Option<string>,
    fromEmail: Option<string>,
    fromName: string,
    mailTo: Option<string>)

  /** Python truthiness of an environment value: unset and empty are both false. */
  predicate Truthy(v: Option<string>) {
    v.Some? && v.value != ""
  }

  predicate TelegramConfigured(cfg: Config) {
    Truthy(cfg.telegramBotToken) && Truthy(cfg.telegramChatId)
  }

  predicate MailConfigured(cfg: Config) {
    Truthy(cfg.brevoApiKey) && Truthy(cfg.fromEmail) && Truthy(cfg.mailTo)
  }

  const TelegramApi := "https://api.telegram.org/bot"
  const BrevoEndpoint := "https://api.brevo.com/v3/smtp/email"

  /** The HTTP POST a channel makes, with the fields of its JSON payload. */
  datatype Request =
    | TelegramPost(url: string, chatId: string, text: string, parseMode: string)
    | BrevoPost(url: string, apiKey: string, senderName: string, senderEmail: string,
                to: seq<string>, subject: string, textContent: string)

  /** What one channel did: nothing (settings missing) or one POST, which
      succeeded or failed. */
  datatype Delivery = Skipped | Attempted(request: Request, ok: bool) {
    /** The boolean the send function returns. */
    predicate Sent() {
      Attempted? && ok
    }
  }

  /** The network outcome of the two POSTs of one `notify` call. */
  datatype Net = Net(telegramOk: bool, mailOk: bool)

  /** The message `notify` hands to Telegram: the subject in bold, a blank
      line, the body. */
  function TelegramMessage(subject: string, body: string): string {
    "<b>" + subject + "</b>\n\n" + body
  }

  /** A subject without '<' can be read back from the message, and then the body too. */
  lemma TelegramMessageInjective(s1: string, b1: string, s2: string, b2: string)
    requires '<' !in s1 && '<' !in s2
    requires TelegramMessage(s1, b1) == TelegramMessage(s2, b2)
    ensures s1 == s2 && b1 == b2
  {
    var m := TelegramMessage(s1, b1);
    assert m[3 + |s1|] == '<';
    assert m[3 + |s2|] == '<';
    assert s1 == m[3..3 + |s1|] == s2;
    assert b1 == m[3 + |s1| + 6..] == b2;
  }

  /** `send_telegram`: skipped unless both token and chat id are set,
      otherwise one POST to the bot's `sendMessage` endpoint. */
  function SendTelegram(cfg: Config, message: string, postOk: bool): (d: Delivery)
    ensures d.Skipped? <==> !TelegramConfigured(cfg)
    ensures d.Sent() <==> TelegramConfigured(cfg) && postOk
    ensures d.Attempted? ==> d.request.TelegramPost? && d.request.text == message
                             && d.request.chatId == cfg.telegramChatId.value && d.request.parseMode == "HTML"
                             && d.request.url == TelegramApi + cfg.telegramBotToken.value + "/sendMessage"
  {
    if !TelegramConfigured(cfg) then Skipped
    else
      var url := TelegramApi + cfg.telegramBotToken.value + "/sendMessage";
      Attempted(TelegramPost(url, cfg.telegramChatId.value, message, "HTML"), postOk)
  }

  /** The recipients of a mail: one per comma-separated piece of `MAIL_TO`,
      stripped. */
  function Recipients(mailTo: string): (r: seq<string>)
    ensures |r| == multiset(mailTo)[','] + 1
    ensures forall k :: 0 <= k < |r| ==> ',' !in r[k]
    ensures forall k :: 0 <= k < |r| && r[k] != [] ==> !IsSpace(r[k][0]) && !IsSpace(r[k][|r[k]| - 1])
    ensures |r| == |Split(mailTo, ',')| && forall k :: 0 <= k < |r| ==> r[k] == Strip(Split(mailTo, ',')[k])
  {
    var pieces := Split(mailTo, ',');
    SplitCount(mailTo, ',');
    var r := seq(|pieces|, k requires 0 <= k < |pieces| => Strip(pieces[k]));
    assert forall k :: 0 <= k < |r| ==> ',' !in r[k] by {
      forall k | 0 <= k < |r| ensures ',' !in r[k] {
        StripKeepsOut(pieces[k], ',');
      }
    }
    r
  }

  /** A list of comma-free pieces joined by commas yields each piece,
      stripped, in order: `"a@x.de, b@y.de"` gives `a@x.de` and `b@y.de`. */
  lemma RecipientsOfList(raw: seq<string>)
    requires |raw| >= 1
    requires forall k :: 0 <= k < |raw| ==> ',' !in raw[k]
    ensures Recipients(Join(",", raw)) == seq(|raw|, k requires 0 <= k < |raw| => Strip(raw[k]))
  {
    assert [','] == ",";
    SplitJoin(raw, ',');
  }

  /** `send_mail`: skipped unless API key, sender and recipient list are all
      set, otherwise one POST to Brevo with the subject and body as given. */
  function SendMail(cfg: Config, subject: string, body: string, postOk: bool): (d: Delivery)
    ensures d.Skipped? <==> !MailConfigured(cfg)
    ensures d.Sent() <==> MailConfigured(cfg) && postOk
    ensures d.Attempted? ==> d.request.BrevoPost? && d.request.url == BrevoEndpoint
                             && d.request.subject == subject && d.request.textContent == body
                             && d.request.to == Recipients(cfg.mailTo.value)
                             && d.request.apiKey == cfg.brevoApiKey.value
                             && d.request.senderEmail == cfg.fromEmail.value && d.request.senderName == cfg.fromName
  {
    if !MailConfigured(cfg) then Skipped
    else
      var request := BrevoPost(BrevoEndpoint, cfg.brevoApiKey.value, cfg.fromName, cfg.fromEmail.value,
                               Recipients(cfg.mailTo.value), subject, body);
      Attempted(request, postOk)
  }

  /** One `notify` call: what each channel did and whether the
      "no notification could be sent" warning was logged. */
  datatype Notice = Notice(subject: string, body: string, telegram: Delivery, mail: Delivery, warned: bool)

  /** `notify`: Telegram first, then mail whatever Telegram's result, and a
      warning exactly when neither was sent. */
  function Notify(cfg: Config, subject: string, body: string, net: Net): (n: Notice)
    ensures n.subject == subject && n.body == body
    ensures n.telegram == SendTelegram(cfg, TelegramMessage(subject, body), net.telegramOk)
    ensures n.mail == SendMail(cfg, subject, body, net.mailOk)
    ensures n.warned <==> !n.telegram.Sent() && !n.mail.Sent()
  {
    var telegram := SendTelegram(cfg, TelegramMessage(subject, body), net.telegramOk);
    var mail := SendMail(cfg, subject, body, net.mailOk);
    Notice(subject, body, telegram, mail, !telegram.Sent() && !mail.Sent())
  }

  /** Both channels are tried on every call: each is attempted exactly when
      it is configured, and the mail request does not depend on how the
      Telegram request fared. */
  lemma NotifyTriesBoth(cfg: Config, subject: string, body: string, net1: Net, net2: Net)
    requires net1.mailOk == net2.mailOk
    ensures Notify(cfg, subject, body, net1).telegram.Attempted? <==> TelegramConfigured(cfg)
    ensures Notify(cfg, subject, body, net1).mail.Attempted? <==> MailConfigured(cfg)
    ensures Notify(cfg, subject, body, net1).mail == Notify(cfg, subject, body, net2).mail
  {
  }

  /** The channel names `main` logs at start-up, in this order; an empty
      list is logged as a warning. */
  function ConfiguredChannels(cfg: Config): (r: seq<string>)
    ensures "Telegram" in r <==> TelegramConfigured(cfg)
    ensures "E-Mail" in r <==> MailConfigured(cfg)
    ensures |r| <= 2
    ensures |r| == 2 ==> r == ["Telegram", "E-Mail"]
  {
    (if TelegramConfigured(cfg) then ["Telegram"] else [])
    + (if MailConfigured(cfg) then ["E-Mail"] else [])
  }

  /** When the start-up warning about no channels is logged, every later
      `notify` logs its own warning too, whatever the network does. */
  lemma NoChannelsAlwaysWarns(cfg: Config, subject: string, body: string, net: Net)
    requires ConfiguredChannels(cfg) == []
    ensures Notify(cfg, subject, body, net).warned
    ensures Notify(cfg, subject, body, net).telegram.Skipped? && Notify(cfg, subject, body, net).mail.Skipped?
  {
  }

  /** The warning is logged exactly when every channel is unconfigured or its POST failed. */
  lemma WarnedIffNothingSent(cfg: Config, subject: string, body: string, net: Net)
    ensures Notify(cfg, subject, body, net).warned
            <==> (!TelegramConfigured(cfg) || !net.telegramOk) && (!MailConfigured(cfg) || !net.mailOk)
  {
  }
}
