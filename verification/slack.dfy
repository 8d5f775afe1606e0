/** The posting step: which message is posted to the webhook, in which mode,
    and how it is shaped. The environment, the command-line options, the
    input file and the webhook itself are parameters or left out. */
module Slack {
  import opened Wrappers
  import opened Text

  /** The longest message posted as it is. */
  const MaxLength: nat := 39000

  /** What replaces the cut-off end of a message that is too long. */
  const OmissionNotice := "\n\n_(メッセージが長すぎるため省略されました)_"

  /** The text before and after the error text in an error notification. */
  const ErrorOpen := ":rotating_light: *記事キュレーションでエラーが発生しました*\n\n```\n"
  const ErrorClose := "\n```"

  /** The notification posted for `--error`: a fixed header, then the error
      text inside a code fence. */
  function ErrorMessage(error: string): (m: string)
    ensures |m| == |ErrorOpen| + |error| + |ErrorClose|
    ensures m[..|ErrorOpen|] == ErrorOpen && m[|m| - |ErrorClose|..] == ErrorClose
    ensures m[|ErrorOpen|..|m| - |ErrorClose|] == error
  {
    ErrorOpen + error + ErrorClose
  }

  /** The error text inside a notification, if `m` is one. The program never
      reads a notification back; this reader serves only to state that
      `ErrorMessage` loses nothing. */
  function ErrorText(m: string): Option<string> {
    if |m| >= |ErrorOpen| + |ErrorClose| && m[..|ErrorOpen|] == ErrorOpen &&
       m[|m| - |ErrorClose|..] == ErrorClose
    then Some(m[|ErrorOpen|..|m| - |ErrorClose|])
    else None
  }

  /** `ErrorMessage` is injective: the error text is recovered from the
      notification (which its own contract already implies), and a message
      that yields an error text is exactly that text's notification, so two
      different errors never give the same notification. */
  lemma ErrorMessageRoundTrip(error: string, m: string)
    ensures ErrorText(ErrorMessage(error)) == Some(error)
    ensures ErrorText(m) == Some(error) ==> ErrorMessage(error) == m
  {
    if ErrorText(m) == Some(error) {
      assert m == m[..|ErrorOpen|] + m[|ErrorOpen|..|m| - |ErrorClose|] + m[|m| - |ErrorClose|..];
    }
  }

  /** A message longer than `MaxLength` is cut to its first `MaxLength`
      characters followed by the omission notice; a shorter one is unchanged. */
  function FitMessage(message: string): (r: string)
    ensures |message| <= MaxLength ==> r == message
    ensures |message| > MaxLength ==> r == message[..MaxLength] + OmissionNotice
    ensures |r| <= MaxLength + |OmissionNotice|
  {
    if |message| > MaxLength then message[..MaxLength] + OmissionNotice else message
  }

  /** Fitting keeps the beginning of the message: the result is the message,
      or the message's first `MaxLength` characters and then the notice, which
      holds text that is not whitespace. */
  lemma FitMessageKeepsStart(message: string)
    ensures FitMessage(message) == message ||
      (FitMessage(message)[..MaxLength] == message[..MaxLength] &&
       FitMessage(message)[MaxLength..] == OmissionNotice)
    ensures !IsBlank(OmissionNotice)
  {
    assert !IsSpace(OmissionNotice[2]);
  }

  /** A message with text that is not whitespace keeps some after fitting. */
  lemma FitMessageNotBlank(message: string)
    requires !IsBlank(message)
    ensures !IsBlank(FitMessage(message))
  {
    if |message| > MaxLength {
      var r := FitMessage(message);
      assert OmissionNotice[2] == '_' && !IsSpace('_');
      assert r[MaxLength + 2] == '_';
    }
  }

  /** What the posting step does. */
  datatype Action =
    | NoWebhook                  // SLACK_WEBHOOK_URL unset or empty: exit 1
    | PostError(text: string)    // --error given: post the notification
    | MissingInput               // no message and no input file: exit 1
    | EmptyMessage               // the message is whitespace only: exit 0, nothing posted
    | Post(text: string)         // post the (fitted) message

  /** The message of the normal mode: a non-empty `--message`, else the input
      file's content (`None` when the file does not exist). */
  function ChosenMessage(message: Option<string>, inputFile: Option<string>): (r: Option<string>)
    ensures message.Some? && message.value != "" ==> r == message
    ensures message.None? || message.value == "" ==> r == inputFile
  {
    if message.Some? && message.value != "" then message else inputFile
  }

  /** `main`: `webhook` is the environment variable, `error` and `message`
      the options, `inputFile` the input file's content. An empty option
      counts as not given. */
  function Decide(webhook: Option<string>, error: Option<string>, message: Option<string>,
                  inputFile: Option<string>): (a: Action)
    ensures a.PostError? ==> error.Some? && a.text == ErrorMessage(error.value)
    ensures a.Post? ==> !IsBlank(a.text) && |a.text| <= MaxLength + |OmissionNotice|
  {
    if webhook.None? || webhook.value == "" then NoWebhook
    else if error.Some? && error.value != "" then PostError(ErrorMessage(error.value))
    else
      match ChosenMessage(message, inputFile)
      case None => MissingInput
      case Some(m) =>
        if Strip(m) == "" then EmptyMessage
        else
          FitMessageNotBlank(m);
          Post(FitMessage(m))
  }

  /** Mode precedence: without a webhook nothing is done; with one, a
      non-empty `--error` is posted as a notification whatever else is given;
      otherwise the chosen message is posted fitted, unless there is none or
      it is whitespace only. */
  lemma DecidePrecedence(webhook: Option<string>, error: Option<string>, message: Option<string>,
                         inputFile: Option<string>)
    ensures webhook.None? || webhook.value == "" ==> Decide(webhook, error, message, inputFile) == NoWebhook
    ensures webhook.Some? && webhook.value != "" && error.Some? && error.value != "" ==>
      Decide(webhook, error, message, inputFile) == PostError(ErrorMessage(error.value))
    ensures webhook.Some? && webhook.value != "" && (error.None? || error.value == "") ==>
      Decide(webhook, error, message, inputFile) ==
        (match ChosenMessage(message, inputFile)
         case None => MissingInput
         case Some(m) => if IsBlank(m) then EmptyMessage else Post(FitMessage(m)))
  {
  }

  /** The input file is not read when a non-empty `--message` is given. */
  lemma MessageOverridesFile(webhook: Option<string>, error: Option<string>, message: string,
                             inputFile: Option<string>, otherFile: Option<string>)
    requires message != ""
    ensures Decide(webhook, error, Some(message), inputFile) == Decide(webhook, error, Some(message), otherFile)
  {
  }

  /** A whitespace-only message is never posted. */
  lemma BlankNeverPosted(webhook: Option<string>, error: Option<string>, message: Option<string>,
                         inputFile: Option<string>)
    requires webhook.Some? && webhook.value != "" && (error.None? || error.value == "")
    requires ChosenMessage(message, inputFile).Some? && IsBlank(ChosenMessage(message, inputFile).value)
    ensures Decide(webhook, error, message, inputFile) == EmptyMessage
  {
  }
}
