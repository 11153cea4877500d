/** `create_support_ticket`: derives a ticket number from the issue text and
    returns the confirmation sentence. Python's `hash` (salted per process)
    is a parameter. */
module Tools {
  import opened Wrappers

  /** Ticket numbers are taken modulo this. */
  const TicketRange := 10000

  const TicketPrefix := "Support ticket #TICKET-"
  const TicketSuffix := " has been created for your issue."

  /** `hash(issue) % 10000`. Python's `%` rounds the quotient down; with a
      positive divisor that is Dafny's `%` too, so a negative hash still
      gives a number in [0, 9999]. */
  function TicketNumber(issue: string, hash: string -> int): (n: nat)
    ensures n < TicketRange
    ensures (hash(issue) - n) % TicketRange == 0
  {
    hash(issue) % TicketRange
  }

  // ---------------------------------------------------------------------------
  // Decimal digits, as an f-string prints a non-negative int

  predicate IsDigit(c: char)
  {
    '0' <= c <= '9'
  }

  predicate AllDigits(s: string)
  {
    forall i :: 0 <= i < |s| ==> IsDigit(s[i])
  }

  function DigitChar(d: nat): (c: char)
    requires d < 10
    ensures IsDigit(c)
  {
    (48 + d) as char
  }

  function DigitValue(c: char): (d: nat)
    requires IsDigit(c)
    ensures d < 10
  {
    c as int - 48
  }

  /** `f"{n}"`: the digits of `n`, without leading zeros. */
  function Decimal(n: nat): (r: string)
    ensures 1 <= |r| && AllDigits(r)
    ensures r[0] == '0' ==> n == 0
  {
    if n < 10 then [DigitChar(n)] else Decimal(n / 10) + [DigitChar(n % 10)]
  }

  /** The number a string of digits denotes. */
  function DecimalValue(s: string): nat
    requires AllDigits(s)
  {
    if s == [] then 0 else 10 * DecimalValue(s[..|s| - 1]) + DigitValue(s[|s| - 1])
  }

  /** Reading back printed digits gives the number printed. */
  lemma {:induction false} DecimalRoundTrip(n: nat)
    ensures DecimalValue(Decimal(n)) == n
  {
    if n >= 10 {
      var r := Decimal(n);
      assert r[..|r| - 1] == Decimal(n / 10);
      DecimalRoundTrip(n / 10);
    }
  }

  function Pow10(w: nat): nat
  {
    if w == 0 then 1 else 10 * Pow10(w - 1)
  }

  /** A number below 10^w prints as at most w digits. */
  lemma {:induction false} DecimalWidth(n: nat, w: nat)
    requires 1 <= w && n < Pow10(w)
    ensures |Decimal(n)| <= w
  {
    if n >= 10 {
      assert n / 10 < Pow10(w - 1);
      DecimalWidth(n / 10, w - 1);
    }
  }

  // ---------------------------------------------------------------------------
  // The tool

  /** `create_support_ticket(issue, user_id)`. `userId` only goes to the
      log line, so the text does not depend on it. */
  function CreateSupportTicket(issue: string, userId: string, hash: string -> int): (r: string)
    ensures |r| > |TicketPrefix| + |TicketSuffix|
    ensures r[..|TicketPrefix|] == TicketPrefix
    ensures r[|r| - |TicketSuffix|..] == TicketSuffix
    ensures r[|TicketPrefix|..|r| - |TicketSuffix|] == Decimal(TicketNumber(issue, hash))
    ensures AllDigits(r[|TicketPrefix|..|r| - |TicketSuffix|])
  {
    var digits := Decimal(TicketNumber(issue, hash));
    var text := TicketPrefix + digits + TicketSuffix;
    assert text[..|TicketPrefix|] == TicketPrefix;
    assert text[|text| - |TicketSuffix|..] == TicketSuffix;
    assert text[|TicketPrefix|..|text| - |TicketSuffix|] == digits;
    text
  }

  /** Reads the ticket number back out of a confirmation text; `None` when
      the text does not have the confirmation's shape. */
  function ReadTicketNumber(text: string): Option<nat>
  {
    if |text| > |TicketPrefix| + |TicketSuffix|
       && text[..|TicketPrefix|] == TicketPrefix
       && text[|text| - |TicketSuffix|..] == TicketSuffix
       && AllDigits(text[|TicketPrefix|..|text| - |TicketSuffix|])
    then Some(DecimalValue(text[|TicketPrefix|..|text| - |TicketSuffix|]))
    else None
  }

  /** The confirmation carries the ticket number, and it can be read back. */
  lemma TicketRoundTrip(issue: string, userId: string, hash: string -> int)
    ensures ReadTicketNumber(CreateSupportTicket(issue, userId, hash)) == Some(TicketNumber(issue, hash))
  {
    DecimalRoundTrip(TicketNumber(issue, hash));
  }

  /** The confirmation is at most 60 characters long: prefix, four digits,
      suffix. */
  lemma TicketLength(issue: string, userId: string, hash: string -> int)
    ensures |CreateSupportTicket(issue, userId, hash)| <= |TicketPrefix| + 4 + |TicketSuffix|
  {
    assert Pow10(4) == TicketRange;
    DecimalWidth(TicketNumber(issue, hash), 4);
  }

  /** The text depends on the issue only through its ticket number and not
      on the user: two issues whose hashes agree modulo 10000 get the same
      confirmation, whoever reports them. */
  lemma TicketDependsOnNumberOnly(issue1: string, user1: string, issue2: string, user2: string, hash: string -> int)
    requires (hash(issue1) - hash(issue2)) % TicketRange == 0
    ensures CreateSupportTicket(issue1, user1, hash) == CreateSupportTicket(issue2, user2, hash)
  {
    SameTicketNumber(issue1, issue2, hash);
  }

  /** Hashes that agree modulo 10000 give the same ticket number. */
  lemma SameTicketNumber(issue1: string, issue2: string, hash: string -> int)
    requires (hash(issue1) - hash(issue2)) % TicketRange == 0
    ensures TicketNumber(issue1, hash) == TicketNumber(issue2, hash)
  {
    var n1, n2 := TicketNumber(issue1, hash), TicketNumber(issue2, hash);
    assert (n1 - n2) % TicketRange == 0;
  }
}
