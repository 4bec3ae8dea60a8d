/**
 * DatePanel: three text fields for day, month and year, each with its verifier,
 * laid out in the order that the "date.ui.fields" message gives, and read back
 * through LocalDate.of.
 */
module DatePanels {
  import opened Wrappers
  import opened JavaLang
  import opened JavaTime
  import opened Panel

  datatype DateField = Day | Month | Year

  const DAY_VERIFIER: Verifier := Verifier(1, Some(31))
  const MONTH_VERIFIER: Verifier := Verifier(1, Some(12))
  /** The year has a lower bound only; parseInt's 32-bit range is its upper bound. */
  const YEAR_VERIFIER: Verifier := Verifier(2000, None)

  function DateVerifiers(): map<DateField, Verifier> {
    map[Day := DAY_VERIFIER, Month := MONTH_VERIFIER, Year := YEAR_VERIFIER]
  }

  /** The three verifiers on the text of an int. */
  lemma DateVerifiersOnInts(n: int)
    ensures Verify(DAY_VERIFIER, FormatInt(n)) <==> 1 <= n <= 31
    ensures Verify(MONTH_VERIFIER, FormatInt(n)) <==> 1 <= n <= 12
    ensures Verify(YEAR_VERIFIER, FormatInt(n)) <==> 2000 <= n <= INT_MAX
  {
    VerifyFormatted(DAY_VERIFIER, n);
    VerifyFormatted(MONTH_VERIFIER, n);
    VerifyFormatted(YEAR_VERIFIER, n);
  }

  /** Texts the verifiers turn down without an exception escaping. */
  lemma DateVerifiersReject()
    ensures !Verify(MONTH_VERIFIER, "0") && !Verify(MONTH_VERIFIER, "13")
    ensures !Verify(YEAR_VERIFIER, "1999") && Verify(YEAR_VERIFIER, "2000")
    ensures !Verify(DAY_VERIFIER, "") && !Verify(DAY_VERIFIER, "abc") && !Verify(DAY_VERIFIER, "1a")
  {
    DateVerifiersOnInts(0);
    assert FormatInt(0) == "0";
    DateVerifiersOnInts(13);
    assert FormatInt(13) == "13";
    DateVerifiersOnInts(1999);
    assert FormatInt(1999) == "1999";
    DateVerifiersOnInts(2000);
    assert FormatInt(2000) == "2000";
    VerifyRejectsNonDigit(DAY_VERIFIER, "abc", 0);
    VerifyRejectsNonDigit(DAY_VERIFIER, "1a", 1);
  }

  /** The exceptions getLocalDate can throw. */
  datatype DateError =
    | InvalidDateValues(year: string, month: string, day: string) // the set of invalid fields is not empty
    | NumberFormat                                                // Integer.parseInt on a field text
    | DateTime                                                    // LocalDate.of on an impossible date

  /**
   * getLocalDate on the set of invalid fields and the three texts: the set alone
   * decides the first gate; then the texts are parsed in the order year, month, day
   * and handed to LocalDate.of.
   */
  function DateFromFields(invalid: set<DateField>, year: string, month: string, day: string): (r: Result<LocalDate, DateError>)
    ensures invalid != {} ==> r == Failure(InvalidDateValues(year, month, day))
    ensures invalid == {} ==>
      (r.Success? <==> ParseInt(year).Some? && ParseInt(month).Some? && ParseInt(day).Some? &&
                       IsCalendarDate(LocalDate(ParseInt(year).value, ParseInt(month).value, ParseInt(day).value)))
    ensures r.Success? ==> r.value == LocalDate(ParseInt(year).value, ParseInt(month).value, ParseInt(day).value)
    ensures invalid == {} && r.Failure? ==>
      r.error == if ParseInt(year).Some? && ParseInt(month).Some? && ParseInt(day).Some? then DateTime else NumberFormat
  {
    if invalid != {} then Failure(InvalidDateValues(year, month, day))
    else match (ParseInt(year), ParseInt(month), ParseInt(day))
      case (Some(y), Some(mo), Some(d)) =>
        (match DateOf(y, mo, d)
         case None => Failure(DateTime)
         case Some(date) => Success(date))
      case _ => Failure(NumberFormat)
  }

  /** With an empty set, the texts of three ints read back as their date, or fail as LocalDate.of does. */
  lemma DateFromFormatted(year: int, month: int, day: int)
    requires INT_MIN <= year <= INT_MAX && INT_MIN <= month <= INT_MAX && INT_MIN <= day <= INT_MAX
    ensures DateFromFields({}, FormatInt(year), FormatInt(month), FormatInt(day)) ==
      if IsCalendarDate(LocalDate(year, month, day)) then Success(LocalDate(year, month, day)) else Failure(DateTime)
  {
    ParseFormatInt(year);
    ParseFormatInt(month);
    ParseFormatInt(day);
  }

  /** The texts the constructor writes read back as the date they came from. */
  lemma DateRoundTrip(date: LocalDate)
    requires IsCalendarDate(date)
    ensures DateFromFields({}, FormatInt(date.year), FormatInt(date.month), FormatInt(date.day)) == Success(date)
  {
    DateFromFormatted(date.year, date.month, date.day);
  }

  /** February 30th passes every verifier but not LocalDate.of. */
  lemma FebruaryThirtiethFails(year: int)
    requires 2000 <= year <= INT_MAX
    ensures Verify(YEAR_VERIFIER, FormatInt(year)) && Verify(MONTH_VERIFIER, "2") && Verify(DAY_VERIFIER, "30")
    ensures DateFromFields({}, FormatInt(year), "2", "30") == Failure(DateTime)
  {
    DateVerifiersOnInts(year);
    DateVerifiersOnInts(2);
    assert FormatInt(2) == "2";
    DateVerifiersOnInts(30);
    assert FormatInt(30) == "30";
    DateFromFormatted(year, 2, 30);
  }

  /**
   * Only the set gates getLocalDate: a date before 2000 reads back although the
   * year verifier rejects its text, and any invalid field fails the getter whatever
   * the texts hold.
   */
  lemma RegistryGatesDate(date: LocalDate, invalid: set<DateField>)
    requires IsCalendarDate(date) && date.year < 2000
    ensures !Verify(YEAR_VERIFIER, FormatInt(date.year))
    ensures DateFromFields({}, FormatInt(date.year), FormatInt(date.month), FormatInt(date.day)) == Success(date)
    ensures invalid != {} ==> DateFromFields(invalid, FormatInt(date.year), FormatInt(date.month), FormatInt(date.day)).Failure?
  {
    DateVerifiersOnInts(date.year);
    DateRoundTrip(date);
  }

  /** The exception the constructor throws. */
  datatype ConstructionError =
    | UnexpectedField(field: string) // a token of the order string other than "d", "m" or "y"
    | NoSuchField                    // fewer than three tokens: poll returns null and getClientProperty throws

  const ORDER_KEY: string := "date.ui.fields"
  const SEPARATOR_KEY: string := "date.ui.fields.separator"

  function ConstraintsKey(f: DateField): string {
    match f
    case Day => "panel.date.field.day.constraints"
    case Month => "panel.date.field.month.constraints"
    case Year => "panel.date.field.year.constraints"
  }

  /**
   * String.split("") on the order string: one token per character, except that the
   * empty string splits into the one empty token.
   */
  function Tokens(order: string): (t: seq<string>)
    ensures |t| == if order == [] then 1 else |order|
    ensures order == [] ==> t == [""]
    ensures forall i :: 0 <= i < |order| ==> t[i] == [order[i]]
  {
    if order == [] then [""] else seq(|order|, i requires 0 <= i < |order| => [order[i]])
  }

  /** The field a token names, as the switch over "d", "m" and "y" does. */
  function TokenField(token: string): Option<DateField> {
    if token == "d" then Some(Day)
    else if token == "m" then Some(Month)
    else if token == "y" then Some(Year)
    else None
  }

  /** The number of leading tokens that name a field. */
  function KnownPrefix(tokens: seq<string>): (k: nat)
    ensures k <= |tokens|
    ensures forall j :: 0 <= j < k ==> TokenField(tokens[j]).Some?
    ensures k < |tokens| ==> TokenField(tokens[k]).None?
  {
    if tokens == [] || TokenField(tokens[0]).None? then 0 else 1 + KnownPrefix(tokens[1..])
  }

  /**
   * The components the constructor adds, in order: the three captions, the first
   * two with ", span 2" and the third with ", wrap"; then the three text fields with
   * a separator label between neighbours, the third with ", wrap".
   */
  function Arrange(a: DateField, b: DateField, c: DateField, m: string -> string): (r: seq<Placement<DateField>>)
    ensures |r| == 8
  {
    var separator := Label(m(SEPARATOR_KEY));
    [ Placement(Caption(a), m(ConstraintsKey(a)) + ", span 2"),
      Placement(Caption(b), m(ConstraintsKey(b)) + ", span 2"),
      Placement(Caption(c), m(ConstraintsKey(c)) + ", wrap"),
      Placement(Input(a), m(ConstraintsKey(a))),
      Placement(separator, ""),
      Placement(Input(b), m(ConstraintsKey(b))),
      Placement(separator, ""),
      Placement(Input(c), m(ConstraintsKey(c)) + ", wrap") ]
  }

  /**
   * What the constructor does with the order string: the first token that names no
   * field is reported; otherwise the first three tokens decide the rows; with fewer
   * than three there is nothing to poll.
   */
  function DateLayout(order: string, m: string -> string): (r: Result<seq<Placement<DateField>>, ConstructionError>)
    ensures r.Success? ==> |order| >= 3 && |r.value| == 8
    ensures r.Failure? && r.error.UnexpectedField? ==> TokenField(r.error.field).None?
    ensures r.Failure? && r.error.NoSuchField? ==> 1 <= |order| < 3
  {
    var tokens := Tokens(order);
    var k := KnownPrefix(tokens);
    if k < |tokens| then Failure(UnexpectedField(tokens[k]))
    else if |tokens| < 3 then Failure(NoSuchField)
    else Success(Arrange(TokenField(tokens[0]).value, TokenField(tokens[1]).value, TokenField(tokens[2]).value, m))
  }

  /**
   * The loop of the constructor over the tokens, filling the label queue and the
   * field queue, followed by the polls and the add calls.
   */
  method DateLayoutOf(order: string, m: string -> string) returns (r: Result<seq<Placement<DateField>>, ConstructionError>)
    ensures r == DateLayout(order, m)
  {
    var tokens := Tokens(order);
    var labelQueue: seq<DateField> := [];
    var fieldQueue: seq<DateField> := [];
    for i := 0 to |tokens|
      invariant |labelQueue| == i && fieldQueue == labelQueue
      invariant forall j :: 0 <= j < i ==> TokenField(tokens[j]) == Some(labelQueue[j])
    {
      match TokenField(tokens[i])
      case None =>
        assert KnownPrefix(tokens) == i;
        return Failure(UnexpectedField(tokens[i]));
      case Some(f) =>
        labelQueue := labelQueue + [f];
        fieldQueue := fieldQueue + [f];
    }
    assert KnownPrefix(tokens) == |tokens|;
    if |labelQueue| < 3 {
      return Failure(NoSuchField);
    }
    ghost var queued := labelQueue;
    var placements: seq<Placement<DateField>> := [];
    var caption := labelQueue[0];
    labelQueue := labelQueue[1..];
    placements := placements + [Placement(Caption(caption), m(ConstraintsKey(caption)) + ", span 2")];
    caption := labelQueue[0];
    labelQueue := labelQueue[1..];
    placements := placements + [Placement(Caption(caption), m(ConstraintsKey(caption)) + ", span 2")];
    caption := labelQueue[0];
    labelQueue := labelQueue[1..];
    placements := placements + [Placement(Caption(caption), m(ConstraintsKey(caption)) + ", wrap")];
    // The field queue holds what the label queue held, so its polls find a field too.
    var field := fieldQueue[0];
    fieldQueue := fieldQueue[1..];
    placements := placements + [Placement(Input(field), m(ConstraintsKey(field))), Placement(Label(m(SEPARATOR_KEY)), "")];
    field := fieldQueue[0];
    fieldQueue := fieldQueue[1..];
    placements := placements + [Placement(Input(field), m(ConstraintsKey(field))), Placement(Label(m(SEPARATOR_KEY)), "")];
    field := fieldQueue[0];
    fieldQueue := fieldQueue[1..];
    placements := placements + [Placement(Input(field), m(ConstraintsKey(field)) + ", wrap")];
    assert placements == Arrange(queued[0], queued[1], queued[2], m);
    r := Success(placements);
  }

  /** A character of the order string names a field when its one-character token does. */
  predicate IsFieldChar(c: char) {
    TokenField([c]).Some?
  }

  function CharField(c: char): DateField
    requires IsFieldChar(c)
  {
    TokenField([c]).value
  }

  /** The order string is accepted exactly when it has at least three characters, each of them d, m or y. */
  lemma DateLayoutAccepted(order: string, m: string -> string)
    ensures DateLayout(order, m).Success? <==> |order| >= 3 && forall i :: 0 <= i < |order| ==> IsFieldChar(order[i])
  {
    var tokens := Tokens(order);
    var k := KnownPrefix(tokens);
    if DateLayout(order, m).Success? {
      forall i | 0 <= i < |order| ensures IsFieldChar(order[i]) {
        assert tokens[i] == [order[i]] && TokenField(tokens[i]).Some?;
      }
    }
  }

  /** The first character that names no field is the one the exception names. */
  lemma DateLayoutRejects(order: string, m: string -> string, i: nat)
    requires i < |order| && !IsFieldChar(order[i])
    requires forall j :: 0 <= j < i ==> IsFieldChar(order[j])
    ensures DateLayout(order, m) == Failure(UnexpectedField([order[i]]))
  {
    var tokens := Tokens(order);
    var k := KnownPrefix(tokens);
    assert tokens[i] == [order[i]];
  }

  /** One or two characters that all name a field leave the third poll with nothing: getClientProperty then throws. */
  lemma ShortOrderRejected(order: string, m: string -> string)
    requires 1 <= |order| < 3 && forall i :: 0 <= i < |order| ==> IsFieldChar(order[i])
    ensures DateLayout(order, m) == Failure(NoSuchField)
  {
    DateLayoutAccepted(order, m);
    var tokens := Tokens(order);
    forall j | 0 <= j < |tokens| ensures TokenField(tokens[j]).Some? {
      assert tokens[j] == [order[j]];
    }
  }

  /** The empty order string splits into one empty token, which names no field. */
  lemma EmptyOrderRejected(m: string -> string)
    ensures DateLayout("", m) == Failure(UnexpectedField(""))
  {
    assert TokenField("") == None;
  }

  /**
   * Every caption and every text field is added with its own field's constraints
   * message, possibly extended, and every label is the separator without constraints.
   */
  lemma ArrangeConstraints(a: DateField, b: DateField, c: DateField, m: string -> string)
    ensures var r := Arrange(a, b, c, m);
      (forall i :: 0 <= i < |r| && (r[i].item.Caption? || r[i].item.Input?) ==>
         m(ConstraintsKey(r[i].item.field)) <= r[i].constraints) &&
      (forall i :: 0 <= i < |r| && r[i].item.Label? ==> r[i] == Placement(Label(m(SEPARATOR_KEY)), ""))
  {
    var r := Arrange(a, b, c, m);
    forall i | 0 <= i < |r| && (r[i].item.Caption? || r[i].item.Input?)
      ensures m(ConstraintsKey(r[i].item.field)) <= r[i].constraints
    {
      var key := m(ConstraintsKey(r[i].item.field));
      if i < 3 {
        assert r[i].constraints == key + (if i == 2 then ", wrap" else ", span 2");
      } else if i == 7 {
        assert r[i].constraints == key + ", wrap";
      } else {
        assert r[i].constraints == key;
      }
    }
  }

  /**
   * An accepted order string decides the layout: captions and fields follow its
   * first three characters, only the third caption and the third field get
   * ", wrap", and separator labels stand between the fields.
   */
  lemma DateLayoutFollowsOrder(order: string, m: string -> string)
    requires DateLayout(order, m).Success?
    ensures var r := DateLayout(order, m).value;
      |r| == 8 && |order| >= 3 &&
      (forall i :: 0 <= i < 3 ==>
         (IsFieldChar(order[i]) &&
          r[i] == Placement(Caption(CharField(order[i])), m(ConstraintsKey(CharField(order[i]))) + (if i == 2 then ", wrap" else ", span 2")) &&
          r[3 + 2 * i] == Placement(Input(CharField(order[i])), m(ConstraintsKey(CharField(order[i]))) + (if i == 2 then ", wrap" else "")))) &&
      r[4] == r[6] == Placement(Label(m(SEPARATOR_KEY)), "")
  {
    DateLayoutCaptions(order, m);
    DateLayoutInputs(order, m);
  }

  /** The arrangement an accepted order string gives, by its first three characters. */
  lemma DateLayoutArranged(order: string, m: string -> string)
    requires DateLayout(order, m).Success?
    ensures |order| >= 3 && IsFieldChar(order[0]) && IsFieldChar(order[1]) && IsFieldChar(order[2])
    ensures DateLayout(order, m).value == Arrange(CharField(order[0]), CharField(order[1]), CharField(order[2]), m)
  {
    DateLayoutAccepted(order, m);
    var tokens := Tokens(order);
    assert tokens[0] == [order[0]] && tokens[1] == [order[1]] && tokens[2] == [order[2]];
  }

  lemma DateLayoutCaptions(order: string, m: string -> string)
    requires DateLayout(order, m).Success?
    ensures var r := DateLayout(order, m).value;
      |r| == 8 && |order| >= 3 &&
      forall i :: 0 <= i < 3 ==>
        IsFieldChar(order[i]) &&
        r[i] == Placement(Caption(CharField(order[i])), m(ConstraintsKey(CharField(order[i]))) + (if i == 2 then ", wrap" else ", span 2"))
  {
    DateLayoutArranged(order, m);
  }

  lemma DateLayoutInputs(order: string, m: string -> string)
    requires DateLayout(order, m).Success?
    ensures var r := DateLayout(order, m).value;
      |r| == 8 && |order| >= 3 &&
      (forall i :: 0 <= i < 3 ==>
         r[3 + 2 * i] == Placement(Input(CharField(order[i])), m(ConstraintsKey(CharField(order[i]))) + (if i == 2 then ", wrap" else ""))) &&
      r[4] == r[6] == Placement(Label(m(SEPARATOR_KEY)), "")
  {
    DateLayoutArranged(order, m);
    forall i | 0 <= i < 2 ensures m(ConstraintsKey(CharField(order[i]))) + "" == m(ConstraintsKey(CharField(order[i]))) {
    }
  }

  /** Characters after the third are checked but do not change the layout. */
  lemma DateLayoutIgnoresRest(order: string, m: string -> string)
    requires DateLayout(order, m).Success?
    ensures DateLayout(order[..3], m) == DateLayout(order, m)
  {
    DateLayoutAccepted(order, m);
    DateLayoutAccepted(order[..3], m);
    var tokens, prefix := Tokens(order), Tokens(order[..3]);
    assert tokens[0] == prefix[0] && tokens[1] == prefix[1] && tokens[2] == prefix[2];
  }

  /**
   * A DatePanel: the group of its three fields, the components it added and its
   * MigLayout constraints.
   */
  class DatePanel {
    const fields: FieldGroup<DateField>
    const layout: seq<Placement<DateField>>
    const constraints: string

    /**
     * A field outside the invalid set holds an int: either it still holds the text
     * the constructor wrote, or its verifier accepted its last text.
     */
    ghost predicate Valid()
      reads this, fields
    {
      fields.Valid() && fields.verifiers == DateVerifiers() &&
      forall f :: f in fields.texts && f !in fields.invalid ==> ParseInt(fields.texts[f]).Some?
    }

    constructor (date: LocalDate, layout: seq<Placement<DateField>>, constraints: string)
      requires IsCalendarDate(date)
      ensures Valid() && fresh(fields)
      ensures fields.texts == map[Day := FormatInt(date.day), Month := FormatInt(date.month), Year := FormatInt(date.year)]
      ensures fields.invalid == {} && fields.Quiet()
      ensures this.layout == layout && this.constraints == constraints
    {
      ParseFormatInt(date.day);
      ParseFormatInt(date.month);
      ParseFormatInt(date.year);
      fields := new FieldGroup(map[Day := FormatInt(date.day), Month := FormatInt(date.month), Year := FormatInt(date.year)], DateVerifiers());
      this.layout := layout;
      this.constraints := constraints;
    }

    /**
     * new DatePanel(date): the texts are the date's day, month and year, the set of
     * invalid fields is empty, the layout follows "date.ui.fields", or the
     * constructor throws.
     */
    static method Create(date: LocalDate, m: string -> string, env: Option<string>) returns (r: Result<DatePanel, ConstructionError>)
      requires IsCalendarDate(date)
      ensures r.Success? <==> DateLayout(m(ORDER_KEY), m).Success?
      ensures r.Failure? ==> r.error == DateLayout(m(ORDER_KEY), m).error
      ensures r.Success? ==> var p := r.value;
        fresh(p) && fresh(p.fields) && p.Valid() && p.fields.invalid == {} && p.fields.Quiet() &&
        p.fields.texts == map[Day := FormatInt(date.day), Month := FormatInt(date.month), Year := FormatInt(date.year)] &&
        p.layout == DateLayout(m(ORDER_KEY), m).value && p.constraints == LayoutConstraints(env) &&
        p.GetLocalDate() == Success(date) && p.IsValidDate()
    {
      var layout := DateLayoutOf(m(ORDER_KEY), m);
      if layout.Failure? {
        return Failure(layout.error);
      }
      var p := new DatePanel(date, layout.value, LayoutConstraints(env));
      DateRoundTrip(date);
      r := Success(p);
    }

    /**
     * getLocalDate. Valid keeps every text that does not parse in the invalid set, so
     * parseInt never throws here, as long as each text change ends in a key release on
     * its own field.
     */
    function GetLocalDate(): (r: Result<LocalDate, DateError>)
      reads this, fields
      requires Valid()
      ensures r == DateFromFields(fields.invalid, fields.texts[Year], fields.texts[Month], fields.texts[Day])
      ensures r.Failure? ==> r.error != NumberFormat
      ensures fields.invalid == {} ==> r.Success? || r.error == DateTime
    {
      DateFromFields(fields.invalid, fields.texts[Year], fields.texts[Month], fields.texts[Day])
    }

    /**
     * isValidDate: getLocalDate does not throw, which is when no field is in the
     * invalid set and the three texts make a calendar date.
     */
    function IsValidDate(): (b: bool)
      reads this, fields
      requires Valid()
      ensures b <==>
        (fields.invalid == {} &&
         IsCalendarDate(LocalDate(ParseInt(fields.texts[Year]).value, ParseInt(fields.texts[Month]).value, ParseInt(fields.texts[Day]).value)))
    {
      GetLocalDate().Success?
    }

    /**
     * A key released on field f whose text is now `text`: the field is re-verified
     * and the notifiers registered on it run.
     */
    method KeyReleased(f: DateField, text: string)
      requires Valid()
      modifies fields
      ensures Valid()
      ensures fields.texts == old(fields.texts)[f := text]
      ensures fields.invalid == Reverify(old(fields.invalid), f, Verify(DateVerifiers()[f], text))
      ensures fields.notifiers == old(fields.notifiers)
      ensures fields.fired == old(fields.fired) + fields.notifiers[f]
    {
      fields.KeyReleased(f, text);
    }

    /** onChange: the notifier is added to the year, month and day fields, in that order. */
    method OnChange(n: Notifier)
      requires Valid()
      modifies fields
      ensures Valid()
      ensures forall f :: f in fields.notifiers <==> f in old(fields.notifiers)
      ensures forall f :: f in fields.notifiers ==> fields.notifiers[f] == old(fields.notifiers[f]) + [n]
      ensures fields.texts == old(fields.texts) && fields.invalid == old(fields.invalid) && fields.fired == old(fields.fired)
    {
      fields.AddChangeNotifier(Year, n);
      fields.AddChangeNotifier(Month, n);
      fields.AddChangeNotifier(Day, n);
    }
  }
}
