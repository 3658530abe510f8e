/**
 * `_parse_retry_time`: how long a flood-control error asks the bot to wait.
 * Bale_Bot.py searches for `Retry in (\d+)` and falls back to 0 seconds;
 * telegram_bot.py and telegram_bot-backup.py search for
 * `Retry in (\d+) seconds` and fall back to 5 seconds.
 */
module RetryTime {
  import opened Text
  import opened Wrappers

  datatype Pattern =
    | RetryIn         // r"Retry in (\d+)"
    | RetryInSeconds  // r"Retry in (\d+) seconds"

  const Lead: string := "Retry in "
  const Tail: string := " seconds"

  /** The seconds used when the pattern does not occur. */
  function Fallback(p: Pattern): nat {
    if p == RetryIn then 0 else 5
  }

  /** The digit run a match at position `i` captures (greedy `\d+`). */
  function Captured(s: string, i: nat): string
    requires i + |Lead| <= |s|
  {
    LeadingDigits(s[i + |Lead|..])
  }

  /** Does the pattern match `s` starting at position `i`? */
  predicate MatchesAt(p: Pattern, s: string, i: nat)
    requires i <= |s|
  {
    StartsWith(s[i..], Lead) &&
    Captured(s, i) != [] &&
    (p == RetryInSeconds ==> StartsWith(s[i + |Lead| + |Captured(s, i)|..], Tail))
  }

  /** `re.search`: the leftmost position at or after `from` where the pattern matches. */
  function Search(p: Pattern, s: string, from: nat): (r: Option<nat>)
    requires from <= |s|
    ensures r.Some? ==> from <= r.value <= |s| && MatchesAt(p, s, r.value)
    ensures r.Some? ==> forall j :: from <= j < r.value ==> !MatchesAt(p, s, j)
    ensures r.None? ==> forall j :: from <= j <= |s| ==> !MatchesAt(p, s, j)
    decreases |s| - from
  {
    if MatchesAt(p, s, from) then Some(from)
    else if from == |s| then None
    else Search(p, s, from + 1)
  }

  /** `_parse_retry_time`: the integer of the leftmost match's digits, else the fallback. */
  function RetrySeconds(p: Pattern, s: string): (n: nat)
    ensures (forall j :: 0 <= j <= |s| ==> !MatchesAt(p, s, j)) ==> n == Fallback(p)
    ensures forall i :: 0 <= i <= |s| && MatchesAt(p, s, i) &&
                        (forall j :: 0 <= j < i ==> !MatchesAt(p, s, j)) ==>
                        n == Value(Captured(s, i))
  {
    match Search(p, s, 0)
    case Some(i) =>
      assert forall k :: (0 <= k <= |s| && MatchesAt(p, s, k) &&
                          (forall j :: 0 <= j < k ==> !MatchesAt(p, s, j))) ==> k == i;
      Value(Captured(s, i))
    case None => Fallback(p)
  }

  /** Bale_Bot.py `_parse_retry_time`. */
  function BaleRetryTime(s: string): nat {
    RetrySeconds(RetryIn, s)
  }

  /** telegram_bot.py / telegram_bot-backup.py `_parse_retry_time`. */
  function TelegramRetryTime(s: string): nat {
    RetrySeconds(RetryInSeconds, s)
  }

  /** Every match starts at an `R`. */
  lemma MatchStartsWithR(p: Pattern, s: string, j: nat)
    requires j <= |s| && MatchesAt(p, s, j)
    ensures j < |s| && s[j] == 'R'
  {
    assert s[j..][0] == Lead[0];
  }

  /** The digits of `n` written after the lead are what a match there captures. */
  lemma {:induction false} CapturedDecimal(p: Pattern, prefix: string, n: nat, rest: string)
    requires rest == [] || !IsDigit(rest[0])
    requires p == RetryInSeconds ==> StartsWith(rest, Tail)
    ensures var s := prefix + Lead + Decimal(n) + rest;
            |prefix| + |Lead| <= |s| && Captured(s, |prefix|) == Decimal(n) && MatchesAt(p, s, |prefix|)
  {
    var s := prefix + Lead + Decimal(n) + rest;
    var i := |prefix|;
    var d := Decimal(n);
    assert s[i..] == Lead + d + rest;
    assert (Lead + d + rest)[..|Lead|] == Lead;
    assert s[i + |Lead|..] == d + rest;
    LeadingDigitsBefore(d, rest);
    assert s[i + |Lead| + |d|..] == rest;
  }

  /** The text of a well-formed flood error: `prefix` + "Retry in <n>" + `rest`. */
  lemma MatchInMessage(p: Pattern, prefix: string, n: nat, rest: string)
    requires forall k :: 0 <= k < |prefix| ==> prefix[k] != 'R'
    requires rest == [] || !IsDigit(rest[0])
    requires p == RetryInSeconds ==> StartsWith(rest, Tail)
    ensures RetrySeconds(p, prefix + Lead + Decimal(n) + rest) == n
  {
    var s := prefix + Lead + Decimal(n) + rest;
    CapturedDecimal(p, prefix, n, rest);
    forall j | 0 <= j < |prefix| ensures !MatchesAt(p, s, j) {
      assert s[j] == prefix[j];
      if MatchesAt(p, s, j) {
        MatchStartsWithR(p, s, j);
      }
    }
  }

  /** Both parsers read back the seconds written into a Telegram-style flood message. */
  lemma RetryTimeRoundTrip(prefix: string, n: nat, rest: string)
    requires forall k :: 0 <= k < |prefix| ==> prefix[k] != 'R'
    ensures TelegramRetryTime(prefix + Lead + Decimal(n) + Tail + rest) == n
    ensures BaleRetryTime(prefix + Lead + Decimal(n) + Tail + rest) == n
  {
    var t := Tail + rest;
    assert prefix + Lead + Decimal(n) + Tail + rest == prefix + Lead + Decimal(n) + t;
    assert StartsWith(t, Tail) && t[0] == ' ';
    MatchInMessage(RetryInSeconds, prefix, n, t);
    MatchInMessage(RetryIn, prefix, n, t);
  }

  /** A complete flood message: both parsers read 7. */
  lemma FullFloodMessage()
    ensures TelegramRetryTime("Error: Retry in 7 seconds") == 7
    ensures BaleRetryTime("Error: Retry in 7 seconds") == 7
  {
    var e := "Error: ";
    var m := e + Lead + Decimal(7) + Tail + [];
    assert m == "Error: Retry in 7 seconds" by {
      assert Decimal(7) == "7";
    }
    assert forall k :: 0 <= k < |e| ==> e[k] != 'R';
    RetryTimeRoundTrip(e, 7, []);
  }

  /** No match can start where no `R` follows. */
  lemma NoMatchWithoutR(p: Pattern, s: string, from: nat)
    requires from <= |s|
    requires forall k :: from <= k < |s| ==> s[k] != 'R'
    ensures forall j :: from <= j <= |s| ==> !MatchesAt(p, s, j)
  {
    forall j | from <= j <= |s| ensures !MatchesAt(p, s, j) {
      if MatchesAt(p, s, j) {
        MatchStartsWithR(p, s, j);
      }
    }
  }

  /** Without the word "seconds" Bale's pattern still matches. */
  lemma ShortFloodMessageBale()
    ensures BaleRetryTime("Retry in 7s") == 7
  {
    assert Decimal(7) == "7";
    assert [] + Lead + "7" + "s" == "Retry in 7s";
    MatchInMessage(RetryIn, [], 7, "s");
  }

  /** Telegram's pattern needs the word "seconds", so it falls back to 5. */
  lemma ShortFloodMessageTelegram()
    ensures TelegramRetryTime("Retry in 7s") == 5
  {
    var s := "Retry in 7s";
    assert Decimal(7) == "7";
    assert s == [] + Lead + Decimal(7) + "s";
    CapturedDecimal(RetryIn, [], 7, "s");
    assert s[|Lead| + 1..] == "s";
    assert !MatchesAt(RetryInSeconds, s, 0);
    NoMatchWithoutR(RetryInSeconds, s, 1);
  }

  /** A flood message without a number: each parser falls back to its default. */
  lemma FloodMessageWithoutNumber()
    ensures TelegramRetryTime("Retry in seconds") == 5
    ensures BaleRetryTime("Retry in seconds") == 0
  {
    var u := "Retry in seconds";
    assert u[9..] == "seconds";
    assert LeadingDigits("seconds") == [];
    assert !MatchesAt(RetryIn, u, 0) && !MatchesAt(RetryInSeconds, u, 0);
    NoMatchWithoutR(RetryIn, u, 1);
    NoMatchWithoutR(RetryInSeconds, u, 1);
  }

  /** An error that is not about flood control yields the defaults. */
  lemma NonFloodMessage()
    ensures TelegramRetryTime("Forbidden") == 5
    ensures BaleRetryTime("Forbidden") == 0
  {
    NoMatchWithoutR(RetryIn, "Forbidden", 0);
    NoMatchWithoutR(RetryInSeconds, "Forbidden", 0);
  }
}
