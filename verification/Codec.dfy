/**
 The small text codecs the relay protocol leans on: chat commands, pairing codes, and the
 conversation key that is built from a channel and a user and later taken apart again.
 */
module Codec {
  import opened Wrappers

  // ---------- white space and letter case ----------

  /** Unicode white space, as strings.TrimSpace sees it. */
  predicate IsSpace(c: char) {
    var n := c as int;
    || 0x09 <= n <= 0x0D || n == 0x20 || n == 0x85 || n == 0xA0 || n == 0x1680 || 0x2000 <= n <= 0x200A
    || n == 0x2028 || n == 0x2029 || n == 0x202F || n == 0x205F || n == 0x3000
  }

  /** Of Latin-1 these eight; of the rest the separators, among them the ideographic space. */
  lemma SpacesAre(c: char)
    ensures c as int < 0x100 ==> (IsSpace(c) <==> c in "\t\n\r " || c as int in {0x0B, 0x0C, 0x85, 0xA0})
    ensures 0x100 <= c as int && IsSpace(c) ==> c as int in {0x1680, 0x2028, 0x2029, 0x202F, 0x205F, 0x3000}
                                                || 0x2000 <= c as int <= 0x200A
    ensures IsSpace(0x3000 as char) && IsSpace(0x2003 as char)
  {
  }

  predicate Blank(s: string) { forall i :: 0 <= i < |s| ==> IsSpace(s[i]) }

  function TrimLeft(s: string): string {
    if s != "" && IsSpace(s[0]) then TrimLeft(s[1..]) else s
  }

  function TrimRight(s: string): string {
    if s != "" && IsSpace(s[|s| - 1]) then TrimRight(s[..|s| - 1]) else s
  }

  function TrimSpace(s: string): string { TrimRight(TrimLeft(s)) }

  /**
   What is used of unicode.ToUpper, which strings.ToUpper applies to every code point: it is idempotent,
   neither makes nor takes away white space, and does the expected to ASCII.
   */
  ghost predicate CaseMap(upper: char -> char) {
    && (forall c :: upper(upper(c)) == upper(c))
    && (forall c :: IsSpace(upper(c)) <==> IsSpace(c))
    && (forall c: char :: c as int < 0x80 ==> upper(c) == AsciiUpper(c))
  }

  function AsciiUpper(c: char): char {
    if 'a' <= c <= 'z' then (c as int - 32) as char else c
  }

  lemma AsciiIsCaseMap()
    ensures CaseMap(AsciiUpper)
  {
  }

  function ToUpper(upper: char -> char, s: string): (r: string)
    ensures |r| == |s| && forall i :: 0 <= i < |s| ==> r[i] == upper(s[i])
  {
    seq(|s|, i requires 0 <= i < |s| => upper(s[i]))
  }

  /** Not empty, and no white space at either end. */
  predicate Trimmed(s: string) { s != "" && !IsSpace(s[0]) && !IsSpace(s[|s| - 1]) }

  lemma {:induction false} TrimLeftPadded(pad: string, s: string)
    requires Blank(pad) && (s != "" ==> !IsSpace(s[0]))
    ensures TrimLeft(pad + s) == s
  {
    if pad == "" {
      assert pad + s == s;
    } else {
      TrimLeftPadded(pad[1..], s);
      assert (pad + s)[1..] == pad[1..] + s;
    }
  }

  lemma {:induction false} TrimRightPadded(s: string, pad: string)
    requires Blank(pad) && (s != "" ==> !IsSpace(s[|s| - 1]))
    ensures TrimRight(s + pad) == s
  {
    if pad == "" {
      assert s + pad == s;
    } else {
      TrimRightPadded(s, pad[..|pad| - 1]);
      assert (s + pad)[..|s + pad| - 1] == s + pad[..|pad| - 1];
    }
  }

  lemma TrimPadded(before: string, s: string, after: string)
    requires Blank(before) && Blank(after) && Trimmed(s)
    ensures TrimSpace(before + s + after) == s
  {
    assert before + s + after == before + (s + after);
    TrimLeftPadded(before, s + after);
    TrimRightPadded(s, after);
  }

  lemma {:induction false} TrimLeftSplits(s: string) returns (pad: string)
    ensures s == pad + TrimLeft(s) && Blank(pad)
    ensures TrimLeft(s) != "" ==> !IsSpace(TrimLeft(s)[0])
  {
    if s != "" && IsSpace(s[0]) {
      var rest := TrimLeftSplits(s[1..]);
      pad := [s[0]] + rest;
    } else {
      pad := "";
    }
  }

  lemma {:induction false} TrimRightSplits(s: string) returns (pad: string)
    ensures s == TrimRight(s) + pad && Blank(pad)
    ensures TrimRight(s) != "" ==> !IsSpace(TrimRight(s)[|TrimRight(s)| - 1])
  {
    if s != "" && IsSpace(s[|s| - 1]) {
      var rest := TrimRightSplits(s[..|s| - 1]);
      pad := rest + [s[|s| - 1]];
    } else {
      pad := "";
    }
  }

  /** Trimming takes white space off both ends and nothing else. */
  lemma TrimSplits(s: string) returns (before: string, after: string)
    ensures s == before + TrimSpace(s) + after && Blank(before) && Blank(after)
    ensures TrimSpace(s) != "" ==> Trimmed(TrimSpace(s))
  {
    before := TrimLeftSplits(s);
    after := TrimRightSplits(TrimLeft(s));
    if TrimSpace(s) != "" {
      assert TrimSpace(s)[0] == TrimLeft(s)[0];
    }
  }

  /** Text that already ends well only loses white space at its start. */
  lemma TrimStart(s: string) returns (pad: string)
    requires s != "" && !IsSpace(s[|s| - 1])
    ensures s == pad + TrimSpace(s) && Blank(pad) && Trimmed(TrimSpace(s))
  {
    pad := TrimLeftSplits(s);
    var rest := TrimLeft(s);
    assert rest == "" ==> s == pad;
    assert rest != "" && rest[|rest| - 1] == s[|s| - 1];
  }

  // ---------- chat commands ----------

  datatype Command = Pair(code: string) | Unpair | Status | Help

  const PAIR_PREFIX: string := "/pair "

  predicate HasPrefix(s: string, prefix: string) { |prefix| <= |s| && s[..|prefix|] == prefix }

  function ParseCommand(upper: char -> char, utterance: string): Option<Command> {
    var trimmed := TrimSpace(utterance);
    var code := if HasPrefix(trimmed, PAIR_PREFIX) then ToUpper(upper, TrimSpace(trimmed[6..])) else "";
    if code != "" then Some(Pair(code))
    else if trimmed == "/unpair" then Some(Unpair)
    else if trimmed == "/status" then Some(Status)
    else if trimmed == "/help" then Some(Help)
    else None
  }

  /** What `VerifyPairingCode` does to a code before looking it up. */
  function NormalizeCode(upper: char -> char, code: string): string { ToUpper(upper, TrimSpace(code)) }

  /** A user's message: the command, some text, and white space wherever it may stand. */
  function PairUtterance(before: string, gap: string, typed: string, after: string): string {
    before + ("/pair " + (gap + typed)) + after
  }

  /** Any text typed after the command, in any letter case and with any white space around, is the code. */
  lemma PairParses(upper: char -> char, before: string, gap: string, typed: string, after: string)
    requires Blank(before) && Blank(gap) && Blank(after) && Trimmed(typed)
    ensures ParseCommand(upper, PairUtterance(before, gap, typed, after)) == Some(Pair(ToUpper(upper, typed)))
  {
    var body := PAIR_PREFIX + (gap + typed);
    assert body[|body| - 1] == typed[|typed| - 1] && body[0] == '/';
    TrimPadded(before, body, after);
    assert body[..6] == PAIR_PREFIX && body[6..] == gap + typed;
    assert gap + typed == gap + typed + "";
    TrimPadded(gap, typed, "");
  }

  /** Conversely a parsed code is exactly the trimmed text after the command, in upper case. */
  lemma PairParsesOnly(upper: char -> char, utterance: string)
    returns (before: string, gap: string, typed: string, after: string)
    requires ParseCommand(upper, utterance).Some? && ParseCommand(upper, utterance).value.Pair?
    ensures utterance == PairUtterance(before, gap, typed, after)
    ensures Blank(before) && Blank(gap) && Blank(after) && Trimmed(typed)
    ensures ParseCommand(upper, utterance) == Some(Pair(ToUpper(upper, typed)))
  {
    before, after := TrimSplits(utterance);
    var trimmed := TrimSpace(utterance);
    var tail := trimmed[6..];
    PrefixLeavesTail(trimmed);
    gap := TrimStart(tail);
    typed := TrimSpace(tail);
  }

  /** The prefix ends in a space, so trimmed text that starts with it goes on. */
  lemma PrefixLeavesTail(trimmed: string)
    requires Trimmed(trimmed) && HasPrefix(trimmed, PAIR_PREFIX)
    ensures trimmed == PAIR_PREFIX + trimmed[6..]
    ensures trimmed[6..] != "" && !IsSpace(trimmed[6..][|trimmed| - 7])
  {
    assert trimmed[5] == PAIR_PREFIX[5];
  }

  /** A PAIR command always carries a code: the handler's own empty-code answer is never given. */
  lemma PairPrefixIsPair(upper: char -> char, utterance: string)
    ensures HasPrefix(TrimSpace(utterance), PAIR_PREFIX) <==>
              ParseCommand(upper, utterance).Some? && ParseCommand(upper, utterance).value.Pair?
    ensures ParseCommand(upper, utterance).Some? && ParseCommand(upper, utterance).value.Pair? ==>
              ParseCommand(upper, utterance).value.code != ""
  {
    var trimmed := TrimSpace(utterance);
    var before, after := TrimSplits(utterance);
    if HasPrefix(trimmed, PAIR_PREFIX) {
      PrefixLeavesTail(trimmed);
      var gap := TrimStart(trimmed[6..]);
      assert |ToUpper(upper, TrimSpace(trimmed[6..]))| > 0;
    }
  }

  /** The other commands are the bare words, with white space around them and nothing else. */
  lemma WordsParse(upper: char -> char, before: string, after: string)
    requires Blank(before) && Blank(after)
    ensures ParseCommand(upper, before + "/unpair" + after) == Some(Unpair)
    ensures ParseCommand(upper, before + "/status" + after) == Some(Status)
    ensures ParseCommand(upper, before + "/help" + after) == Some(Help)
  {
    TrimPadded(before, "/unpair", after);
    TrimPadded(before, "/status", after);
    TrimPadded(before, "/help", after);
    assert "/unpair"[1] != PAIR_PREFIX[1] && "/status"[1] != PAIR_PREFIX[1] && "/help"[1] != PAIR_PREFIX[1];
  }

  /** Conversely each comes from such a line only, and every line that is no command is a chat line. */
  lemma WordsParseOnly(upper: char -> char, utterance: string) returns (before: string, after: string)
    ensures Blank(before) && Blank(after)
    ensures ParseCommand(upper, utterance) == Some(Unpair) <==> utterance == before + "/unpair" + after
    ensures ParseCommand(upper, utterance) == Some(Status) <==> utterance == before + "/status" + after
    ensures ParseCommand(upper, utterance) == Some(Help) <==> utterance == before + "/help" + after
    ensures ParseCommand(upper, utterance) == None <==>
              && utterance != before + "/unpair" + after && utterance != before + "/status" + after
              && utterance != before + "/help" + after && !HasPrefix(TrimSpace(utterance), PAIR_PREFIX)
  {
    before, after := TrimSplits(utterance);
    WordsParse(upper, before, after);
    PairPrefixIsPair(upper, utterance);
  }

  lemma UpperTwice(upper: char -> char, s: string)
    requires CaseMap(upper)
    ensures ToUpper(upper, ToUpper(upper, s)) == ToUpper(upper, s)
  {
  }

  lemma UpperIsNormal(upper: char -> char, typed: string)
    requires CaseMap(upper) && Trimmed(typed)
    ensures NormalizeCode(upper, ToUpper(upper, typed)) == ToUpper(upper, typed)
  {
    assert Trimmed(ToUpper(upper, typed));
    UpperTwice(upper, typed);
  }

  /** Of any other text it takes the white space off both ends, and puts the rest in upper case. */
  lemma NormalizeAny(upper: char -> char, before: string, typed: string, after: string)
    requires Blank(before) && Blank(after)
    ensures Trimmed(typed) ==> NormalizeCode(upper, before + typed + after) == ToUpper(upper, typed)
    ensures NormalizeCode(upper, before) == ""
  {
    if Trimmed(typed) { TrimPadded(before, typed, after); }
    TrimLeftPadded(before, "");
    assert before + "" == before;
  }

  /** The second normalisation never changes what the parser produced. */
  lemma NormalizeParsed(upper: char -> char, utterance: string)
    requires CaseMap(upper)
    requires ParseCommand(upper, utterance).Some? && ParseCommand(upper, utterance).value.Pair?
    ensures NormalizeCode(upper, ParseCommand(upper, utterance).value.code) == ParseCommand(upper, utterance).value.code
  {
    var before, gap, typed, after := PairParsesOnly(upper, utterance);
    UpperIsNormal(upper, typed);
  }

  // ---------- pairing codes ----------

  const CODE_CHARS: string := "ABCDEFGHJKLMNPQRSTUVWXYZ23456789"

  predicate IsCodeChar(c: char) { c in CODE_CHARS }

  predicate IsPairingCode(s: string) {
    |s| == 9 && s[4] == '-' && forall i :: 0 <= i < 9 && i != 4 ==> IsCodeChar(s[i])
  }

  /** One draw per character, each below the size of the alphabet. */
  ghost predicate Draws(random: seq<nat>) {
    |random| == 8 && forall i :: 0 <= i < 8 ==> random[i] < |CODE_CHARS|
  }

  /** The code a sequence of draws stands for. */
  function CodeOf(random: seq<nat>): string
    requires Draws(random)
  {
    seq(9, i requires 0 <= i < 9 => if i == 4 then '-' else CODE_CHARS[random[if i < 4 then i else i - 1]])
  }

  /** `generateSessionPairingCode`: two byte arrays filled in loops and joined by a dash. */
  method GeneratePairingCode(random: seq<nat>) returns (code: string)
    requires Draws(random)
    ensures IsPairingCode(code) && code == CodeOf(random)
  {
    var part1 := new char[4](_ => ' ');
    var part2 := new char[4](_ => ' ');
    var i := 0;
    while i < 4
      invariant 0 <= i <= 4
      invariant forall j :: 0 <= j < i ==> part1[j] == CODE_CHARS[random[j]]
    {
      part1[i] := CODE_CHARS[random[i]];
      i := i + 1;
    }
    i := 0;
    while i < 4
      invariant 0 <= i <= 4
      invariant forall j :: 0 <= j < i ==> part2[j] == CODE_CHARS[random[4 + j]]
      invariant forall j :: 0 <= j < 4 ==> part1[j] == CODE_CHARS[random[j]]
    {
      part2[i] := CODE_CHARS[random[4 + i]];
      i := i + 1;
    }
    code := part1[..] + "-" + part2[..];
  }

  /** Different draws give different codes, so all 32^8 codes occur. */
  lemma CodeOfInjective(a: seq<nat>, b: seq<nat>)
    requires Draws(a) && Draws(b) && CodeOf(a) == CodeOf(b)
    ensures a == b
  {
    forall i | 0 <= i < 8 ensures a[i] == b[i] {
      var k := if i < 4 then i else i + 1;
      assert CodeOf(a)[k] == CODE_CHARS[a[i]] && CodeOf(b)[k] == CODE_CHARS[b[i]];
      CodeCharsDistinct(a[i], b[i]);
    }
  }

  /** The alphabet by number: I and O are left out, and the digits come last. */
  function CharNumber(i: nat): nat {
    if i < 8 then i + 65 else if i < 13 then i + 66 else if i < 24 then i + 67 else i + 26
  }

  lemma CodeCharIs(i: nat)
    requires i < |CODE_CHARS|
    ensures CODE_CHARS[i] as int == CharNumber(i)
  {
  }

  lemma CodeCharsDistinct(i: nat, j: nat)
    requires i < |CODE_CHARS| && j < |CODE_CHARS| && CODE_CHARS[i] == CODE_CHARS[j]
    ensures i == j
  {
    CodeCharIs(i);
    CodeCharIs(j);
  }

  lemma CodeCharsRange(c: char)
    requires IsCodeChar(c)
    ensures 'A' <= c <= 'Z' || '2' <= c <= '9'
  {
    var i :| 0 <= i < |CODE_CHARS| && CODE_CHARS[i] == c;
  }

  /**
   Round trip: a generated code, typed after the command in any letter case and with any white space
   around it, parses to exactly that code.
   */
  lemma PairingCodeRoundTrip(upper: char -> char, code: string, before: string, gap: string, typed: string,
                             after: string)
    requires CaseMap(upper) && IsPairingCode(code) && ToUpper(upper, typed) == code
    requires Blank(before) && Blank(gap) && Blank(after)
    ensures ParseCommand(upper, PairUtterance(before, gap, typed, after)) == Some(Pair(code))
    ensures NormalizeCode(upper, code) == code
  {
    CodeCharsRange(code[0]);
    CodeCharsRange(code[8]);
    PairParses(upper, before, gap, typed, after);
    UpperIsNormal(upper, typed);
  }

  // ---------- conversation keys ----------

  /** `channel:user` */
  function BuildConversationKey(channel: string, user: string): string { channel + ":" + user }

  /** strings.Split(s, ":") */
  function Split(s: string): (parts: seq<string>)
    ensures parts != []
  {
    if s == "" then [""]
    else if s[0] == ':' then [""] + Split(s[1..])
    else Prepend(s[0], Split(s[1..]))
  }

  /** The first part grows by a character at its front. */
  function Prepend(c: char, parts: seq<string>): (r: seq<string>)
    requires parts != []
    ensures |r| == |parts|
  {
    [[c] + parts[0]] + parts[1..]
  }

  function Join(parts: seq<string>): string
    requires parts != []
  {
    if |parts| == 1 then parts[0] else parts[0] + ":" + Join(parts[1..])
  }

  predicate ColonFree(s: string) { ':' !in s }

  /** The user id the services read back from a key: the second part, if there is one. */
  function KakaoUserId(key: string): Option<string> {
    var parts := Split(key);
    if |parts| >= 2 then Some(parts[1]) else None
  }

  lemma JoinCons(part: string, parts: seq<string>)
    requires parts != []
    ensures Join([part] + parts) == part + ":" + Join(parts)
  {
    assert ([part] + parts)[1..] == parts;
  }

  lemma JoinPrepend(c: char, parts: seq<string>)
    requires parts != []
    ensures Join(Prepend(c, parts)) == [c] + Join(parts)
  {
    if |parts| > 1 {
      JoinCons([c] + parts[0], parts[1..]);
      assert [c] + parts[0] + ":" + Join(parts[1..]) == [c] + (parts[0] + ":" + Join(parts[1..]));
    }
  }

  lemma PrependConcat(c: char, p: seq<string>, q: seq<string>)
    requires p != []
    ensures Prepend(c, p + q) == Prepend(c, p) + q
  {
  }

  lemma {:induction false} JoinSplit(s: string)
    ensures Join(Split(s)) == s
  {
    if s != "" {
      JoinSplit(s[1..]);
      if s[0] == ':' { JoinCons("", Split(s[1..])); } else { JoinPrepend(s[0], Split(s[1..])); }
      assert s == [s[0]] + s[1..];
    }
  }

  lemma {:induction false} SplitBuild(channel: string, user: string)
    ensures Split(BuildConversationKey(channel, user)) == Split(channel) + Split(user)
  {
    var key := BuildConversationKey(channel, user);
    if channel == "" {
      assert key[1..] == user;
    } else {
      SplitBuild(channel[1..], user);
      assert key[0] == channel[0] && key[1..] == BuildConversationKey(channel[1..], user);
      PrependConcat(channel[0], Split(channel[1..]), Split(user));
    }
  }

  lemma {:induction false} SplitColonFree(s: string)
    ensures ColonFree(s) <==> Split(s) == [s]
    ensures |Split(s)| == 1 <==> ColonFree(s)
  {
    if s != "" {
      SplitColonFree(s[1..]);
      assert s == [s[0]] + s[1..];
      assert ColonFree(s) <==> s[0] != ':' && ColonFree(s[1..]);
    }
  }

  lemma {:induction false} SplitPartsColonFree(s: string)
    ensures forall i :: 0 <= i < |Split(s)| ==> ColonFree(Split(s)[i])
  {
    if s != "" { SplitPartsColonFree(s[1..]); }
  }

  /**
   Keys are unambiguous over colon-free channel ids, whatever the user keys hold; so a clash on the
   key and a clash on (channel, user) are the same clash.
   */
  lemma KeyInjective(channel1: string, user1: string, channel2: string, user2: string)
    requires ColonFree(channel1) && ColonFree(channel2)
    ensures BuildConversationKey(channel1, user1) == BuildConversationKey(channel2, user2) <==>
              channel1 == channel2 && user1 == user2
  {
    if BuildConversationKey(channel1, user1) == BuildConversationKey(channel2, user2) {
      SplitBuild(channel1, user1);
      SplitBuild(channel2, user2);
      SplitColonFree(channel1);
      SplitColonFree(channel2);
      var parts := Split(channel1) + Split(user1);
      assert parts[0] == channel1 && parts[0] == channel2;
      assert parts[1..] == Split(user1) && parts[1..] == Split(user2);
      JoinSplit(user1);
      JoinSplit(user2);
    }
  }

  /** The second channel starts with the first and a colon. */
  predicate Continues(channel1: string, channel2: string) {
    HasPrefix(channel2, channel1 + ":")
  }

  /** A common key makes the longer channel continue the shorter. */
  lemma ClashContinues(channel1: string, user1: string, channel2: string, user2: string)
    requires BuildConversationKey(channel1, user1) == BuildConversationKey(channel2, user2)
    requires |channel1| < |channel2|
    ensures Continues(channel1, channel2)
  {
    var key := BuildConversationKey(channel1, user1);
    var n := |channel1| + 1;
    assert key[..n] == channel1 + ":";
    assert key[..n] == channel2[..n];
  }

  lemma SameLengthSameChannel(channel1: string, user1: string, channel2: string, user2: string)
    requires BuildConversationKey(channel1, user1) == BuildConversationKey(channel2, user2)
    requires |channel1| == |channel2|
    ensures channel1 == channel2 && user1 == user2
  {
    var key := BuildConversationKey(channel1, user1);
    var n := |channel1|;
    assert key[..n] == channel1 && key[..n] == channel2;
    assert key[n + 1..] == user1 && key[n + 1..] == user2;
  }

  /** Such a channel does clash, on a user key that its own text and any user key make up. */
  lemma ContinuesClash(channel1: string, channel2: string, user: string) returns (user1: string)
    requires Continues(channel1, channel2)
    ensures BuildConversationKey(channel1, user1) == BuildConversationKey(channel2, user)
  {
    var n := |channel1| + 1;
    user1 := channel2[n..] + ":" + user;
    assert channel2 == channel2[..n] + channel2[n..] == channel1 + ":" + channel2[n..];
    assert channel1 + ":" + user1 == channel1 + ":" + channel2[n..] + ":" + user;
  }

  /** Exactly when one of two channels continues the other can conversations of the two share a key. */
  lemma ChannelsClash(channel1: string, channel2: string)
    requires channel1 != channel2
    ensures (exists user1, user2 :: BuildConversationKey(channel1, user1) == BuildConversationKey(channel2, user2))
       <==> Continues(channel1, channel2) || Continues(channel2, channel1)
  {
    if user1, user2 :| BuildConversationKey(channel1, user1) == BuildConversationKey(channel2, user2) {
      KeyApart(channel1, user1, channel2, user2);
    }
    if Continues(channel1, channel2) {
      var user1 := ContinuesClash(channel1, channel2, "");
    }
    if Continues(channel2, channel1) {
      var user2 := ContinuesClash(channel2, channel1, "");
      assert BuildConversationKey(channel1, "") == BuildConversationKey(channel2, user2);
    }
  }

  /** So a key names one conversation unless a channel continues another. */
  lemma KeyApart(channel1: string, user1: string, channel2: string, user2: string)
    requires BuildConversationKey(channel1, user1) == BuildConversationKey(channel2, user2)
    ensures (channel1 == channel2 && user1 == user2) || Continues(channel1, channel2) || Continues(channel2, channel1)
  {
    if |channel1| == |channel2| {
      SameLengthSameChannel(channel1, user1, channel2, user2);
    } else if |channel1| < |channel2| {
      ClashContinues(channel1, user1, channel2, user2);
    } else {
      ClashContinues(channel2, user2, channel1, user1);
    }
  }

  /**
   The user id read back: with a colon-free channel it is the right one exactly when the user key is
   colon-free; with a colon in the channel it is a piece of the channel, whatever the user key is.
   */
  lemma UserIdRoundTrip(channel: string, user: string)
    ensures ColonFree(channel) ==>
              (KakaoUserId(BuildConversationKey(channel, user)) == Some(user) <==> ColonFree(user))
    ensures !ColonFree(channel) ==>
              |Split(channel)| >= 2 && KakaoUserId(BuildConversationKey(channel, user)) == Some(Split(channel)[1])
  {
    SplitBuild(channel, user);
    SplitColonFree(channel);
    SplitColonFree(user);
    SplitPartsColonFree(user);
    var parts := Split(channel) + Split(user);
    if ColonFree(channel) {
      assert parts[1] == Split(user)[0];
    } else {
      assert parts[1] == Split(channel)[1];
    }
  }
}
