/**
 * Per-session conversation state and input sanitising, as `aula6.py`, `aula7.py`
 * and `aula8.py` each define them (`store`, `get_session_history`, `sanitize_input`).
 */
module Sessions {
  import opened Text
  import opened Utf8

  datatype Role = Human | Ai

  datatype Message = Message(role: Role, content: string)

  /** A `ChatMessageHistory`: the ordered messages of one session. */
  class History {
    var messages: seq<Message>

    constructor ()
      ensures messages == []
    {
      messages := [];
    }
  }

  /** The module-level `store` dict: session id to that session's history object. */
  class SessionStore {
    var sessions: map<string, History>

    constructor ()
      ensures sessions == map[]
    {
      sessions := map[];
    }

    /**
     * `get_session_history(session_id)`: get-or-create. An unseen id gets a fresh,
     * empty history; a known id gets back the very object stored for it. No entry is
     * ever removed or replaced, and no history's messages are touched.
     */
    method GetSessionHistory(sessionId: string) returns (h: History)
      modifies this
      ensures sessionId in sessions && sessions[sessionId] == h
      ensures sessionId in old(sessions) ==> sessions == old(sessions) && h == old(sessions[sessionId])
      ensures sessionId !in old(sessions) ==>
                fresh(h) && h.messages == [] && sessions == old(sessions)[sessionId := h]
      ensures forall k :: k in old(sessions) ==> k in sessions && sessions[k] == old(sessions[k])
      ensures sessions.Keys == old(sessions.Keys) + {sessionId}
    {
      if sessionId !in sessions {
        var created := new History();
        sessions := sessions[sessionId := created];
      }
      h := sessions[sessionId];
    }
  }

  /** What `sanitize_input` of aula7/aula8 may receive: text, or raw bytes. */
  datatype PyText = Str(s: string) | Bytes(b: seq<byte>)

  /** `sanitize_input(text: str)` of aula6: NFD, then drop every Mn character. */
  function SanitizeText(s: string): (r: string)
    ensures forall i :: 0 <= i < |r| ==> !IsMn(r[i])
  {
    RemoveMarks(s)
  }

  /**
   * `sanitize_input(text)` of aula7/aula8: bytes are first decoded as UTF-8 with
   * replacement, text is taken as it is (`str(text)`), then marks are removed.
   */
  function SanitizeInput(x: PyText): (r: string)
    ensures forall i :: 0 <= i < |r| ==> !IsMn(r[i])
  {
    match x
    case Str(s) => SanitizeText(s)
    case Bytes(b) => SanitizeText(Decode(b))
  }

  /** ASCII text (no letter with a diacritic, no mark) passes through unchanged, case included. */
  lemma SanitizeAscii(s: string)
    requires forall i :: 0 <= i < |s| ==> s[i] < '\U{80}'
    ensures SanitizeText(s) == s
  {
    forall i | 0 <= i < |s| ensures IsPlain(s[i]) {
      AsciiIsPlain(s[i]);
    }
    RemoveMarksOfPlain(s);
  }

  /** Sanitising is idempotent. */
  lemma SanitizeIdempotent(s: string)
    ensures SanitizeText(SanitizeText(s)) == SanitizeText(s)
  {
    RemoveMarksIdempotent(s);
  }

  /** The bytes of a text, as UTF-8, sanitise to the same result as the text itself. */
  lemma SanitizeBytesOfText(s: string)
    ensures SanitizeInput(Bytes(Encode(s))) == SanitizeInput(Str(s))
  {
    DecodeEncode(s);
  }

  /**
   * Sanitising keeps case: on Latin-1 text, lower-casing or upper-casing before or after
   * it gives the same result.
   */
  lemma SanitizeKeepsCase(s: string)
    requires forall i :: 0 <= i < |s| ==> s[i] <= '\U{FF}'
    ensures SanitizeText(ToLower(s)) == ToLower(SanitizeText(s))
    ensures SanitizeText(ToUpper(s)) == ToUpper(SanitizeText(s))
  {
    LowerCommutes(s);
    UpperCommutes(s);
  }

  /** A letter with a diacritic loses the diacritic and keeps its case. */
  lemma SanitizeExample()
    ensures SanitizeText("\U{C1}gua") == "Agua"
  {
    assert "\U{C1}gua" == ['\U{C1}'] + "gua";
    RemoveMarksAppend(['\U{C1}'], "gua");
    RemoveMarksChar('\U{C1}');
    SanitizeAscii("gua");
    assert ['A'] + "gua" == "Agua";
  }
}
