/** Printing a duration (src/app/logging.rs). */
module Durations {
  import opened Text
  import opened Wrappers

  predicate IsDigit(c: char) { '0' <= c <= '9' }

  function Digit(d: int): char
    requires 0 <= d < 10
  {
    (d + 48) as char
  }

  /** A number in decimal, without leading zeros. */
  function Decimal(n: nat): string {
    if n < 10 then [Digit(n)] else Decimal(n / 10) + [Digit(n % 10)]
  }

  /** The number that a text of digits writes. */
  function Number(text: string): Option<nat> {
    if text == "" then None
    else
      var last := text[|text| - 1];
      if !IsDigit(last) then None
      else if |text| == 1 then Some(last as int - 48)
      else
        match Number(text[..|text| - 1])
        case None => None
        case Some(n) => Some(10 * n + last as int - 48)
  }

  lemma {:induction false} NumberOfDecimal(n: nat)
    ensures Number(Decimal(n)) == Some(n)
    ensures ' ' !in Decimal(n) && Decimal(n) != ""
  {
    if n >= 10 {
      NumberOfDecimal(n / 10);
      var text := Decimal(n);
      assert text[..|text| - 1] == Decimal(n / 10);
    }
  }

  /** Which of the words for hours, minutes and seconds are printed: the five forms for a non-zero time. */
  function Assemble(hours: nat, minutes: nat, seconds: nat, h: string, m: string, s: string): string {
    if hours == 0 && minutes == 0 then s
    else if hours == 0 then m + " " + s
    else if minutes == 0 && seconds == 0 then h
    else if seconds == 0 then h + " " + m
    else h + " " + (m + " " + s)
  }

  function FormatParts(hours: nat, minutes: nat, seconds: nat): string {
    Assemble(hours, minutes, seconds, Decimal(hours) + "h", Decimal(minutes) + "m", Decimal(seconds) + "s")
  }

  /** The text for a whole number of seconds. */
  function FormatDuration(totalSecs: nat): string {
    if totalSecs == 0 then "< 1s"
    else FormatParts(totalSecs / 3600, (totalSecs % 3600) / 60, totalSecs % 60)
  }

  /** The seconds that one word of the text stands for. */
  function WordSeconds(word: string): Option<nat> {
    if word == "" then None
    else
      match Number(word[..|word| - 1])
      case None => None
      case Some(n) =>
        match word[|word| - 1]
        case 'h' => Some(3600 * n)
        case 'm' => Some(60 * n)
        case 's' => Some(n)
        case _ => None
  }

  function TotalSeconds(words: seq<string>): Option<nat> {
    if words == [] then Some(0)
    else
      match (WordSeconds(words[0]), TotalSeconds(words[1..]))
      case (Some(n), Some(rest)) => Some(n + rest)
      case _ => None
  }

  /** A reader of the printed text, which knows nothing of the five forms. */
  function ParseDuration(text: string): Option<nat> {
    TotalSeconds(Split(text, ' '))
  }

  function Unit(c: char): nat {
    if c == 'h' then 3600 else if c == 'm' then 60 else 1
  }

  lemma {:induction false} WordReads(n: nat, unit: char)
    requires unit == 'h' || unit == 'm' || unit == 's'
    ensures WordSeconds(Decimal(n) + [unit]) == Some(Unit(unit) * n)
    ensures ' ' !in Decimal(n) + [unit]
  {
    NumberOfDecimal(n);
    assert (Decimal(n) + [unit])[..|Decimal(n)|] == Decimal(n);
  }

  lemma {:induction false} OneWord(w: string, n: nat)
    requires WordSeconds(w) == Some(n) && ' ' !in w
    ensures ParseDuration(w) == Some(n)
  {
    SplitOfJoin([w], ' ');
    assert Join([w], " ") == w;
    assert [w][1..] == [] && TotalSeconds([]) == Some(0);
  }

  lemma {:induction false} NextWord(w: string, n: nat, rest: string, more: nat)
    requires WordSeconds(w) == Some(n) && ' ' !in w
    requires ParseDuration(rest) == Some(more)
    ensures ParseDuration(w + " " + rest) == Some(n + more)
  {
    SplitOnceAt(w, ' ', rest);
    var words := Split(w + " " + rest, ' ');
    assert words == [w] + Split(rest, ' ');
    assert words[1..] == Split(rest, ' ');
  }

  /** In front of a readable text, a word adds its seconds. */
  ghost predicate Adds(read: string -> Option<nat>, w: string, n: nat) {
    forall rest: string, more: nat :: read(rest) == Some(more) ==> read(w + " " + rest) == Some(n + more)
  }

  lemma {:induction false} AssembledReads(read: string -> Option<nat>, hours: nat, minutes: nat, seconds: nat,
                                          h: string, m: string, s: string)
    requires read(h) == Some(3600 * hours) && Adds(read, h, 3600 * hours)
    requires read(m) == Some(60 * minutes) && Adds(read, m, 60 * minutes)
    requires read(s) == Some(seconds)
    ensures read(Assemble(hours, minutes, seconds, h, m, s)) == Some(3600 * hours + 60 * minutes + seconds)
  {
    assert read(m + " " + s) == Some(60 * minutes + seconds);
  }

  lemma {:induction false} WordAdds(w: string, n: nat)
    requires WordSeconds(w) == Some(n) && ' ' !in w
    ensures ParseDuration(w) == Some(n) && Adds(ParseDuration, w, n)
  {
    OneWord(w, n);
    forall rest: string, more: nat | ParseDuration(rest) == Some(more)
      ensures ParseDuration(w + " " + rest) == Some(n + more)
    {
      NextWord(w, n, rest, more);
    }
  }

  lemma {:induction false} PartsRead(hours: nat, minutes: nat, seconds: nat)
    ensures ParseDuration(FormatParts(hours, minutes, seconds)) == Some(3600 * hours + 60 * minutes + seconds)
  {
    var h, m, s := Decimal(hours) + "h", Decimal(minutes) + "m", Decimal(seconds) + "s";
    WordReads(hours, 'h');
    WordReads(minutes, 'm');
    WordReads(seconds, 's');
    WordAdds(h, 3600 * hours);
    WordAdds(m, 60 * minutes);
    WordAdds(s, seconds);
    AssembledReads(ParseDuration, hours, minutes, seconds, h, m, s);
  }

  /** Every total of at least one second can be read back, whichever of the five forms prints it. */
  lemma {:induction false} DurationRoundTrip(totalSecs: nat)
    requires totalSecs > 0
    ensures ParseDuration(FormatDuration(totalSecs)) == Some(totalSecs)
  {
    HoursMinutesSeconds(totalSecs);
    PartsReadAs(totalSecs / 3600, (totalSecs % 3600) / 60, totalSecs % 60, totalSecs);
  }

  lemma {:induction false} PartsReadAs(hours: nat, minutes: nat, seconds: nat, total: nat)
    requires total == 3600 * hours + 60 * minutes + seconds
    ensures ParseDuration(FormatParts(hours, minutes, seconds)) == Some(total)
  {
    PartsRead(hours, minutes, seconds);
  }

  /** A number in decimal begins with a zero only if it is zero. */
  lemma {:induction false} NoLeadingZero(n: nat)
    ensures Decimal(n) != "" && (Decimal(n)[0] == '0' <==> n == 0)
  {
    if n >= 10 {
      NoLeadingZero(n / 10);
    }
  }

  /**
   The text for some hours, less than 60 minutes and less than 60 seconds: seconds alone, minutes
   and seconds, or hours with as much as is needed; nothing at all is less than a second.
   */
  lemma {:induction false} FormExactly(h: nat, m: nat, s: nat)
    requires m < 60 && s < 60
    ensures var text := FormatDuration(3600 * h + 60 * m + s);
            && (h == 0 && m == 0 && s == 0 ==> text == "< 1s")
            && (h == 0 && m == 0 && s > 0 ==> text == Decimal(s) + "s")
            && (h == 0 && m > 0 ==> text == Decimal(m) + "m " + Decimal(s) + "s")
            && (h > 0 && m == 0 && s == 0 ==> text == Decimal(h) + "h")
            && (h > 0 && m > 0 && s == 0 ==> text == Decimal(h) + "h " + Decimal(m) + "m")
            && (h > 0 && s > 0 ==> text == Decimal(h) + "h " + Decimal(m) + "m " + Decimal(s) + "s")
  {
    PartsOfTotal(h, m, s, 3600 * h + 60 * m + s);
    FormOfParts(Decimal(h), Decimal(m), Decimal(s));
  }

  lemma {:induction false} PartsOfTotal(h: nat, m: nat, s: nat, total: nat)
    requires m < 60 && s < 60 && total == 3600 * h + 60 * m + s
    ensures total / 3600 == h && total % 3600 / 60 == m && total % 60 == s
  {
    assert total / 3600 == h && total % 3600 == 60 * m + s;
    RemainderOfSixties(total, 60 * h + m, s);
    QuotientOfSixties(m, s);
  }

  lemma {:induction false} QuotientOfSixties(m: nat, s: nat)
    requires s < 60
    ensures (60 * m + s) / 60 == m
  {
  }

  lemma {:induction false} FormOfParts(h: string, m: string, s: string)
    ensures m + "m" + " " + (s + "s") == m + "m " + s + "s"
    ensures h + "h" + " " + (m + "m") == h + "h " + m + "m"
    ensures h + "h" + " " + (m + "m" + " " + (s + "s")) == h + "h " + m + "m " + s + "s"
  {
  }

  lemma {:induction false} HoursMinutesSeconds(n: nat)
    ensures n == 3600 * (n / 3600) + 60 * ((n % 3600) / 60) + n % 60
  {
    var hours, rest := n / 3600, n % 3600;
    var minutes, seconds := SixtiesOf(rest);
    RemainderOfSixties(n, 60 * hours + minutes, seconds);
    RemainderOfSixties(rest, minutes, seconds);
  }

  lemma {:induction false} SixtiesOf(n: nat) returns (sixties: nat, rest: nat)
    ensures n == 60 * sixties + rest && rest < 60 && sixties == n / 60
  {
    sixties, rest := n / 60, n % 60;
  }

  lemma {:induction false} RemainderOfSixties(n: nat, sixties: nat, rest: nat)
    requires n == 60 * sixties + rest && rest < 60
    ensures n % 60 == rest
  {
  }

  /** Different totals print differently; less than a second prints unlike any of them. */
  lemma {:induction false} DurationInjective(a: nat, b: nat)
    requires FormatDuration(a) == FormatDuration(b)
    ensures a == b
  {
    SubSecondIsUnreadable();
    if a > 0 {
      DurationRoundTrip(a);
    }
    if b > 0 {
      DurationRoundTrip(b);
    }
  }

  lemma {:induction false} SubSecondIsUnreadable()
    ensures ParseDuration(FormatDuration(0)) == None
  {
    var words := ["<", "1s"];
    SplitOfJoin(words, ' ');
    assert Join(words[1..], " ") == "1s";
    assert FormatDuration(0) == Join(words, " ");
    assert words[0][..0] == "";
  }
}
