/** `to_bool`, the truthiness rule the wireless device classes apply to the
    values clients send. */
module WirelessUtils {
  import opened Python

  /** The lower-cased spellings a string must have to count as true. */
  const TrueWords: set<string> := {"1", "y", "yes", "true"}

  /** A string is true iff its lower-cased form is one of `TrueWords`;
      every other value goes by Python truthiness. */
  function ToBool(v: PyValue): (r: bool)
    ensures v.PyStr? ==> (r <==> Lower(v.s) in TrueWords)
    ensures !v.PyStr? ==> (r <==> Truthy(v))
  {
    match v
    case PyStr(s) => Lower(s) in TrueWords
    case _ => Truthy(v)
  }

  /** Whether `s` spells `w` up to the case of ASCII letters. */
  predicate SpellsIgnoringCase(s: string, w: string)
  {
    |s| == |w| && forall i :: 0 <= i < |s| ==> LowerChar(s[i]) == w[i]
  }

  /** The string rule, stated without `Lower`: a string is true exactly when
      it spells one of the four words in any mixture of cases. */
  lemma ToBoolStringIff(s: string)
    ensures ToBool(PyStr(s)) <==> exists w :: w in TrueWords && SpellsIgnoringCase(s, w)
  {
    if ToBool(PyStr(s)) {
      assert SpellsIgnoringCase(s, Lower(s));
    }
    if w :| w in TrueWords && SpellsIgnoringCase(s, w) {
      assert Lower(s) == w;
    }
  }

  /** The result does not depend on the case of the string. */
  lemma ToBoolCaseInsensitive(s: string)
    ensures ToBool(PyStr(s)) == ToBool(PyStr(Lower(s)))
  {
    LowerIdempotent(s);
  }

  /** Leading white space is not stripped: no padded string is true. */
  lemma ToBoolRejectsPadding(s: string)
    ensures !ToBool(PyStr(" " + s))
  {
    var l := Lower(" " + s);
    assert l[0] == ' ';
    assert forall w | w in TrueWords :: w[0] != ' ';
  }

  /** Strings outside the set, and zero, are false; nonzero integers are true. */
  lemma ToBoolExamples(i: int)
    ensures !ToBool(PyStr("0")) && !ToBool(PyStr("no")) && !ToBool(PyStr(""))
    ensures ToBool(PyStr("TRUE")) && ToBool(PyStr("Yes")) && ToBool(PyStr("Y"))
    ensures ToBool(PyInt(i)) <==> i != 0
    ensures !ToBool(PyNone)
  {
    assert Lower("0") == "0";
    assert Lower("no") == "no";
    assert Lower("TRUE") == "true";
    assert Lower("Yes") == "yes";
    assert Lower("Y") == "y";
  }

  /** The result is a bool, so applying `to_bool` again changes nothing. */
  lemma ToBoolIdempotent(v: PyValue)
    ensures ToBool(PyBool(ToBool(v))) == ToBool(v)
  {
  }
}
