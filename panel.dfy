/**
 * What the three panels share through the Panel interface: field verifiers built
 * on Integer.parseInt, the set of fields whose last verification failed, the key
 * listeners that re-verify a field and run change notifiers, the items a panel
 * places, and the MigLayout constraint string built from MIGLAYOUT_CONSTRAINTS.
 */
module Panel {
  import opened Wrappers
  import opened JavaLang

  /**
   * A field verifier: the text must parse as an int, and the int must be at least
   * min and, when there is a max, at most max. A NumberFormatException from
   * parseInt is caught and reads as a rejection.
   */
  datatype Verifier = Verifier(min: int, max: Option<int>)

  predicate InBounds(v: Verifier, n: int) {
    v.min <= n && (v.max.None? || n <= v.max.value)
  }

  function Verify(v: Verifier, text: string): (b: bool)
    ensures ParseInt(text).None? ==> !b
    ensures ParseInt(text).Some? ==> (b <==> InBounds(v, ParseInt(text).value))
  {
    match ParseInt(text)
    case None => false
    case Some(n) => InBounds(v, n)
  }

  /** On the text String.valueOf gives for n, a verifier accepts exactly the ints within its bounds. */
  lemma VerifyFormatted(v: Verifier, n: int)
    ensures Verify(v, FormatInt(n)) <==> INT_MIN <= n <= INT_MAX && InBounds(v, n)
  {
    ParseFormatInt(n);
  }

  /** A text with a character other than a digit after the optional sign is rejected, without an exception. */
  lemma VerifyRejectsNonDigit(v: Verifier, text: string, i: nat)
    requires i < |text| && !IsDigit(text[i])
    requires i > 0 || (text[0] != '-' && text[0] != '+')
    ensures !Verify(v, text)
  {
    ParseIntRejectsNonDigit(text, i);
  }

  /**
   * The set of invalid fields after verifyTextField saw the verifier return
   * `verified` for field f: f is added on a rejection and removed on an acceptance.
   */
  function Reverify<F>(invalid: set<F>, f: F, verified: bool): (r: set<F>)
    ensures f in r <==> !verified
    ensures r - {f} == invalid - {f}
  {
    if verified then invalid - {f} else invalid + {f}
  }

  /** Verifying a field with the same outcome twice leaves the set as verifying it once. */
  lemma ReverifyIdempotent<F>(invalid: set<F>, f: F, verified: bool)
    ensures Reverify(Reverify(invalid, f, verified), f, verified) == Reverify(invalid, f, verified)
  {
  }

  /** Only the last verification of a field decides its membership. */
  lemma ReverifyLastWins<F>(invalid: set<F>, f: F, first: bool, second: bool)
    ensures Reverify(Reverify(invalid, f, first), f, second) == Reverify(invalid, f, second)
  {
  }

  /** Verifications of two different fields can happen in either order. */
  lemma ReverifyCommutes<F>(invalid: set<F>, f: F, a: bool, g: F, b: bool)
    requires f != g
    ensures Reverify(Reverify(invalid, f, a), g, b) == Reverify(Reverify(invalid, g, b), f, a)
  {
  }

  /** A change notifier (the Runnable handed to onChange), identified by its caller's choice of number. */
  type Notifier = nat

  /**
   * The text fields of one panel together with the panel's invalidTextFields set:
   * each field's text, the verifier its key listener was created with, and the
   * change notifiers registered on it in registration order. `fired` records every
   * run of a change notifier, in order.
   */
  class FieldGroup<F(==)> {
    var texts: map<F, string>
    const verifiers: map<F, Verifier>
    var invalid: set<F>
    var notifiers: map<F, seq<Notifier>>
    var fired: seq<Notifier>
    /** The fields on which a key has been released at least once. */
    ghost var released: set<F>

    /**
     * Only a key release verifies a field, so a field never released is not in the
     * set, and a released field is in it exactly when its current text is rejected.
     */
    ghost predicate Valid()
      reads this
    {
      WellFormed() && forall f :: f in verifiers ==> Tracks(f)
    }

    ghost predicate WellFormed()
      reads this
    {
      texts.Keys == verifiers.Keys && notifiers.Keys == verifiers.Keys &&
      invalid <= released <= verifiers.Keys
    }

    /** The set agrees with the verifier on field f, if f was ever verified. */
    ghost predicate Tracks(f: F)
      reads this
      requires WellFormed() && f in verifiers
    {
      f in released ==> (f in invalid <==> !Verify(verifiers[f], texts[f]))
    }

    /** No change notifier is registered on any field, and none has run. */
    ghost predicate Quiet()
      reads this
    {
      fired == [] && forall f :: f in notifiers ==> notifiers[f] == []
    }

    /** The fields with their initial texts; the set starts empty and no notifier is registered. */
    constructor (texts: map<F, string>, verifiers: map<F, Verifier>)
      requires texts.Keys == verifiers.Keys
      ensures Valid()
      ensures this.texts == texts && this.verifiers == verifiers
      ensures invalid == {} && released == {} && fired == []
      ensures forall f :: f in verifiers ==> f in notifiers && notifiers[f] == []
      ensures Quiet()
    {
      this.texts := texts;
      this.verifiers := verifiers;
      invalid := {};
      notifiers := map f | f in verifiers.Keys :: [];
      fired := [];
      released := {};
    }

    /**
     * verifyTextField: the verifier's answer on the field's current text, with the
     * field added to the set on a rejection and removed on an acceptance.
     */
    method VerifyTextField(f: F) returns (verified: bool)
      requires WellFormed() && f in verifiers
      requires forall g :: g in verifiers && g != f ==> Tracks(g)
      modifies this`invalid, this`released
      ensures Valid()
      ensures verified == Verify(verifiers[f], texts[f])
      ensures invalid == Reverify(old(invalid), f, verified)
      ensures released == old(released) + {f}
    {
      verified := Verify(verifiers[f], texts[f]);
      if !verified {
        invalid := invalid + {f};
      } else {
        invalid := invalid - {f};
      }
      released := released + {f};
    }

    /**
     * A key released on field f after its text became `text`: the verifying key
     * listener, added first, re-verifies the field, and then every change notifier
     * registered on the field runs once, whatever the verifier said.
     */
    method KeyReleased(f: F, text: string)
      requires Valid() && f in verifiers
      modifies this`texts, this`invalid, this`released, this`fired
      ensures Valid()
      ensures texts == old(texts)[f := text]
      ensures f in invalid <==> !Verify(verifiers[f], text)
      ensures invalid == Reverify(old(invalid), f, Verify(verifiers[f], text))
      ensures fired == old(fired) + notifiers[f]
    {
      texts := texts[f := text];
      var verified := VerifyTextField(f);
      fired := fired + notifiers[f];
    }

    /** addKeyListener(createChangeNotifierKeyListener(n)) on field f. */
    method AddChangeNotifier(f: F, n: Notifier)
      requires Valid() && f in verifiers
      modifies this`notifiers
      ensures Valid()
      ensures notifiers == old(notifiers)[f := old(notifiers)[f] + [n]]
    {
      notifiers := notifiers[f := notifiers[f] + [n]];
    }
  }

  /** What a panel places: a field's caption, a field's text field, a fixed label, or the AM/PM box. */
  datatype Item<F> = Caption(field: F) | Input(field: F) | Label(text: string) | AmPmBox

  /** One call of add(component, constraints). */
  datatype Placement<F> = Placement(item: Item<F>, constraints: string)

  /** The layout defaults alone, or the defaults followed by ", " and the override. */
  function JoinConstraints(defaults: string, env: Option<string>): (r: string)
    ensures |r| >= |defaults| && r[..|defaults|] == defaults
    ensures env.None? <==> r == defaults
  {
    match env
    case None => defaults
    case Some(extra) => defaults + ", " + extra
  }

  /** The override a constraint string carries after the defaults, if any. */
  function OverrideOf(defaults: string, constraints: string): Option<string> {
    var n := |defaults| + 2;
    if |constraints| >= n && constraints[..n] == defaults + ", " then Some(constraints[n..]) else None
  }

  /** The override can be read back from the joined string, so joining loses nothing. */
  lemma OverrideRecovered(defaults: string, env: Option<string>)
    ensures OverrideOf(defaults, JoinConstraints(defaults, env)) == env
  {
    if env.Some? {
      var r := defaults + ", " + env.value;
      assert r[..|defaults| + 2] == defaults + ", ";
      assert r[|defaults| + 2..] == env.value;
    }
  }

  const PANEL_DEFAULTS: string := "gap 0 0, ins 0 4 4 4"

  /** Panel.getLayoutConstraints, with the value of MIGLAYOUT_CONSTRAINTS as a parameter. */
  function LayoutConstraints(env: Option<string>): (r: string)
    ensures |r| >= |PANEL_DEFAULTS| && r[..|PANEL_DEFAULTS|] == PANEL_DEFAULTS
    ensures env.None? <==> r == PANEL_DEFAULTS
    ensures OverrideOf(PANEL_DEFAULTS, r) == env
  {
    OverrideRecovered(PANEL_DEFAULTS, env);
    JoinConstraints(PANEL_DEFAULTS, env)
  }
}
