/** The chat-prefix cleanup in `PluginGroup.execute_player_message`: a message that
    starts with `"[<player>] "` is meant to reach the hooks without that prefix.
    The source calls `str.strip(pat)`, which removes every leading and trailing
    character that occurs anywhere in `pat`, not the prefix itself. */
module PlayerMessage {
  import opened PyText

  /** `f"[{player}] "`. */
  function ChatPrefix(player: string): (pat: string)
    ensures |pat| == |player| + 3 && pat[0] == '[' && pat[|pat| - 1] == ' '
  {
    "[" + player + "] "
  }

  /** Python's `s.lstrip(chars)`. */
  function StripLeft(s: string, chars: set<char>): (r: string)
    ensures |r| <= |s| && r == s[|s| - |r|..]
    ensures |r| > 0 ==> r[0] !in chars
    ensures forall i :: 0 <= i < |s| - |r| ==> s[i] in chars
    decreases |s|
  {
    if |s| > 0 && s[0] in chars then StripLeft(s[1..], chars) else s
  }

  /** Python's `s.rstrip(chars)`. */
  function StripRight(s: string, chars: set<char>): (r: string)
    ensures |r| <= |s| && r == s[..|r|]
    ensures |r| > 0 ==> r[|r| - 1] !in chars
    ensures forall i :: |r| <= i < |s| ==> s[i] in chars
    decreases |s|
  {
    if |s| > 0 && s[|s| - 1] in chars then StripRight(s[..|s| - 1], chars) else s
  }

  /** Python's `s.strip(chars)`: the result is a slice of `s` that neither starts nor
      ends with a character of `chars`, and everything cut off on either side is in
      `chars`. */
  function Strip(s: string, chars: set<char>): (r: string)
    ensures exists i, j :: 0 <= i <= j <= |s| && r == s[i..j]
                           && (forall k :: 0 <= k < i ==> s[k] in chars)
                           && (forall k :: j <= k < |s| ==> s[k] in chars)
    ensures |r| > 0 ==> r[0] !in chars && r[|r| - 1] !in chars
  {
    var l := StripLeft(s, chars);
    var r := StripRight(l, chars);
    StripParts(s, l, r, chars);
    r
  }

  /** A suffix cut by `lstrip` followed by a prefix cut by `rstrip` is a slice with
      only stripped characters around it. */
  lemma StripParts(s: string, l: string, r: string, chars: set<char>)
    requires |l| <= |s| && l == s[|s| - |l|..]
    requires forall k :: 0 <= k < |s| - |l| ==> s[k] in chars
    requires |r| <= |l| && r == l[..|r|]
    requires forall k :: |r| <= k < |l| ==> l[k] in chars
    ensures exists i, j :: 0 <= i <= j <= |s| && r == s[i..j]
                           && (forall k :: 0 <= k < i ==> s[k] in chars)
                           && (forall k :: j <= k < |s| ==> s[k] in chars)
  {
    var i := |s| - |l|;
    var j := i + |r|;
    assert r == s[i..j];
    forall k | j <= k < |s|
      ensures s[k] in chars
    {
      assert s[k] == l[k - i];
    }
  }

  function CharsOf(s: string): set<char> {
    set c | c in s
  }

  /** Lines 267-269 as written: `msg.strip(pat)` when `msg` starts with `pat`. */
  function MessageAsWritten(player: string, msg: string): (r: string)
    ensures !StartsWith(msg, ChatPrefix(player)) ==> r == msg
    ensures |r| <= |msg|
  {
    var pat := ChatPrefix(player);
    if StartsWith(msg, pat) then Strip(msg, CharsOf(pat)) else msg
  }

  /** What the hooks are meant to receive: the message with its chat prefix
      removed, and any other message unchanged. */
  function CleanMessage(player: string, msg: string): (r: string)
    ensures StartsWith(msg, ChatPrefix(player)) ==> ChatPrefix(player) + r == msg
    ensures !StartsWith(msg, ChatPrefix(player)) ==> r == msg
  {
    var pat := ChatPrefix(player);
    if StartsWith(msg, pat) then
      var r := msg[|pat|..];
      assert pat + r == msg;
      r
    else msg
  }

  /** The chat prefix is removed exactly: putting it back gives the message. */
  lemma CleanMessageRoundTrip(player: string, body: string)
    ensures CleanMessage(player, ChatPrefix(player) + body) == body
  {
    var pat := ChatPrefix(player);
    assert (pat + body)[..|pat|] == pat;
    assert (pat + body)[|pat|..] == body;
  }

  lemma SteveChars()
    ensures CharsOf("[Steve] ") == {'[', 'S', 't', 'e', 'v', ']', ' '}
  {
  }

  lemma SteveLeftStrip()
    ensures StripLeft("[Steve] test", CharsOf("[Steve] ")) == "st"
  {
    SteveChars();
    var chars := CharsOf("[Steve] ");
    var cut := "[Steve] te";
    StripLeftPrefix(cut, "st", chars);
    assert cut + "st" == "[Steve] test";
  }

  lemma SteveRightStrip()
    ensures StripRight("st", CharsOf("[Steve] ")) == "s"
  {
    var chars := CharsOf("[Steve] ");
    assert "[Steve] "[2] == 't';
    assert 's' !in chars;
    assert StripRight("st", chars) == StripRight("s", chars) == "s";
  }

  /** The strip removes the prefix and also eats into the body: the body "test" of
      `"[Steve] test"` loses its leading "te" and trailing "t" because 't' and 'e'
      occur in "Steve". */
  lemma StripEatsMessage()
    ensures MessageAsWritten("Steve", "[Steve] test") == "s"
    ensures CleanMessage("Steve", "[Steve] test") == "test"
  {
    var pat := ChatPrefix("Steve");
    assert pat == "[Steve] ";
    CleanMessageRoundTrip("Steve", "test");
    assert pat + "test" == "[Steve] test";
    assert StartsWith("[Steve] test", pat);
    SteveStrip();
  }

  lemma SteveStrip()
    ensures Strip("[Steve] test", CharsOf("[Steve] ")) == "s"
  {
    SteveLeftStrip();
    SteveRightStrip();
  }

  /** The two agree whenever the body is empty or neither starts nor ends with a
      character of the prefix: `"[Steve] hello"` gives "hello" either way. */
  lemma AsWrittenAgreesOnPlainBodies(player: string, body: string)
    requires body == [] || (body[0] !in ChatPrefix(player) && body[|body| - 1] !in ChatPrefix(player))
    ensures MessageAsWritten(player, ChatPrefix(player) + body) == CleanMessage(player, ChatPrefix(player) + body)
  {
    var pat := ChatPrefix(player);
    var msg := pat + body;
    var chars := CharsOf(pat);
    CleanMessageRoundTrip(player, body);
    StripLeftPrefix(pat, body, chars);
    if |body| > 0 {
      assert StripRight(body, chars) == body;
    } else {
      assert StripLeft(msg, chars) == body;
    }
  }

  lemma {:induction false} StripLeftPrefix(pat: string, body: string, chars: set<char>)
    requires forall i :: 0 <= i < |pat| ==> pat[i] in chars
    requires |body| > 0 ==> body[0] !in chars
    ensures StripLeft(pat + body, chars) == body
    decreases |pat|
  {
    if |pat| == 0 {
      assert pat + body == body;
    } else {
      assert (pat + body)[1..] == pat[1..] + body;
      StripLeftPrefix(pat[1..], body, chars);
    }
  }

  /** `"[Steve] hello"` reaches the hooks as `"hello"`. */
  lemma Examples()
    ensures MessageAsWritten("Steve", "[Steve] hello") == "hello"
  {
    var pat := ChatPrefix("Steve");
    assert pat == "[Steve] ";
    assert 'h' !in pat && 'o' !in pat;
    AsWrittenAgreesOnPlainBodies("Steve", "hello");
    CleanMessageRoundTrip("Steve", "hello");
    assert pat + "hello" == "[Steve] hello";
  }

  /** `"hello"`, without the prefix, is left as it is. */
  lemma PlainExample()
    ensures MessageAsWritten("Steve", "hello") == "hello"
  {
    var pat := ChatPrefix("Steve");
    assert pat == "[Steve] ";
    assert "hello"[0] != pat[0];
  }
}
