/** From a message to its paste (injectMessageToSession in daemon/src/agents/tmux.ts):
    sanitising, stamping and delivery together. */
module Injection {
  import opened JsStrings
  import opened PaneDelivery
  import InjectText

  function Stamped(stamp: JsString, text: JsString): JsString {
    stamp + [0x20] + InjectText.Sanitize(text)
  }

  /** A message for a session: nothing is done if the session is missing or nothing is
      left of the text. */
  method InjectMessageToSession(pane: Pane, sessionFound: bool, stamp: JsString, text: JsString)
    returns (delivered: bool, log: seq<Action>)
    ensures !sessionFound || InjectText.Sanitize(text) == [] ==> !delivered && log == []
    ensures sessionFound && InjectText.Sanitize(text) != [] ==> Delivered(pane, log, Stamped(stamp, text), delivered)
  {
    if !sessionFound {
      return false, [];
    }
    var safeText := InjectText.Sanitize(text);
    if safeText == [] {
      return false, [];
    }
    delivered, log := Inject(pane, stamp + [0x20] + safeText);
  }

  /** Whatever the message and the pane: each paste is the time stamp and the sanitised
      text, without control characters or mentions, and of bounded length. */
  lemma EveryPasteIsSafe(pane: Pane, log: seq<Action>, stamp: JsString, text: JsString, delivered: bool, k: nat)
    requires Delivered(pane, log, Stamped(stamp, text), delivered) && k < |log| && log[k].Paste?
    requires InjectText.NoControls(stamp) && InjectText.AT !in stamp
    ensures InjectText.NoControls(log[k].text) && InjectText.MentionFree(log[k].text)
    ensures |log[k].text| <= |stamp| + 6001
    ensures log[k].text == stamp + [InjectText.Unit(' ')] + InjectText.Sanitize(text)
  {
    assert SafeAt(log, Stamped(stamp, text), k);
    InjectText.SanitizeIsSafe(text);
    InjectText.SafeConcat(stamp + [0x20], InjectText.Sanitize(text));
  }
}
