/** The three identity canonicalisers of src/lib/normalization.js. A plate is
    upper-cased and loses every whitespace character and hyphen, wherever it
    stands; a VIN or engine number is upper-cased and only trimmed, so inner
    spaces and hyphens survive. Empty input gives the empty string. */
module Normalization {
  import opened Common

  predicate IsSpaceOrHyphen(c: char) { IsSpace(c) || c == '-' }

  predicate NoSpaceOrHyphen(s: string) { forall i :: 0 <= i < |s| ==> !IsSpaceOrHyphen(s[i]) }

  /** `replace(/[\s-]/g, '')`: delete every whitespace character and hyphen. */
  function StripSpaceHyphen(s: string): (r: string)
    ensures |r| <= |s|
  {
    if s == [] then []
    else (if IsSpaceOrHyphen(s[0]) then [] else [s[0]]) + StripSpaceHyphen(s[1..])
  }

  lemma {:induction false} StripIsClean(s: string)
    ensures NoSpaceOrHyphen(StripSpaceHyphen(s))
  {
    if s != [] {
      StripIsClean(s[1..]);
      var h := if IsSpaceOrHyphen(s[0]) then [] else [s[0]];
      var t := StripSpaceHyphen(s[1..]);
      assert forall i :: 0 <= i < |t| ==> (h + t)[|h| + i] == t[i];
    }
  }

  lemma {:induction false} StripKeepsNoLower(s: string)
    requires NoLower(s)
    ensures NoLower(StripSpaceHyphen(s))
  {
    if s != [] {
      StripKeepsNoLower(s[1..]);
      NoLowerAppend(if IsSpaceOrHyphen(s[0]) then [] else [s[0]], StripSpaceHyphen(s[1..]));
    }
  }

  lemma {:induction false} StripOfClean(s: string)
    requires NoSpaceOrHyphen(s)
    ensures StripSpaceHyphen(s) == s
  {
    if s != [] {
      StripOfClean(s[1..]);
    }
  }

  function NormalizePlate(plate: string): (r: string)
  {
    if plate == "" then "" else StripSpaceHyphen(Upper(plate))
  }

  /** A normalised plate has no whitespace, no hyphen and no lower-case
      letter, and is never longer than the input. */
  lemma PlateShape(plate: string)
    ensures NoSpaceOrHyphen(NormalizePlate(plate))
    ensures NoLower(NormalizePlate(plate))
    ensures |NormalizePlate(plate)| <= |plate|
  {
    if plate != "" {
      StripIsClean(Upper(plate));
      UpperHasNoLower(plate);
      StripKeepsNoLower(Upper(plate));
    }
  }

  function NormalizeVin(vin: string): (r: string)
  {
    if vin == "" then "" else Trim(Upper(vin))
  }

  function NormalizeEngine(engine: string): (r: string)
  {
    if engine == "" then "" else Trim(Upper(engine))
  }

  /** Empty input, the only falsy string, yields the empty string in all three. */
  lemma EmptyNormalizesToEmpty()
    ensures NormalizePlate("") == "" && NormalizeVin("") == "" && NormalizeEngine("") == ""
  {
  }

  lemma {:induction false} PlateIdempotent(plate: string)
    ensures NormalizePlate(NormalizePlate(plate)) == NormalizePlate(plate)
  {
    var once := NormalizePlate(plate);
    PlateShape(plate);
    if once != "" {
      UpperOfNoLower(once);
      StripOfClean(once);
    }
  }

  lemma {:induction false} StripAppend(a: string, b: string)
    ensures StripSpaceHyphen(a + b) == StripSpaceHyphen(a) + StripSpaceHyphen(b)
  {
    if a != [] {
      assert (a + b)[1..] == a[1..] + b;
      StripAppend(a[1..], b);
    } else {
      assert a + b == b;
    }
  }

  /** A plate that is already upper-case and free of separators is its own
      normal form. */
  lemma PlateOfClean(s: string)
    requires NoLower(s) && NoSpaceOrHyphen(s)
    ensures NormalizePlate(s) == s
  {
    UpperOfNoLower(s);
    StripOfClean(s);
  }

  /** A plate whose upper-case form is two clean parts around one separator
      normalises to the two parts joined directly. */
  lemma PlateWithSeparator(s: string, head: string, sep: char, tail: string)
    requires Upper(s) == head + [sep] + tail
    requires NoSpaceOrHyphen(head) && NoSpaceOrHyphen(tail) && IsSpaceOrHyphen(sep)
    ensures NormalizePlate(s) == head + tail
  {
    var x1 := head + [sep];
    assert s != "";
    StripAppend(x1, tail);
    StripAppend(head, [sep]);
    StripOfClean(head);
    StripOfClean(tail);
  }

  /** Upper-casing the input first does not change the normal form. */
  lemma PlateOfUpper(s: string)
    ensures NormalizePlate(Upper(s)) == NormalizePlate(s)
  {
    UpperHasNoLower(s);
    UpperOfNoLower(Upper(s));
  }

  /** A plate whose upper-case form is already clean normalises to that form. */
  lemma PlateOfUpperClean(s: string, u: string)
    requires Upper(s) == u && NoSpaceOrHyphen(u)
    ensures NormalizePlate(s) == u
  {
    PlateOfUpper(s);
    UpperHasNoLower(s);
    PlateOfClean(u);
  }

  /** Inserting one whitespace character or hyphen anywhere in a plate does
      not change its normal form, so "P 111809", "P-111809" and "P111809"
      meet. */
  lemma PlateIgnoresSeparator(head: string, sep: char, tail: string)
    requires IsSpaceOrHyphen(sep)
    ensures NormalizePlate(head + [sep] + tail) == NormalizePlate(head + tail)
  {
    var x1 := head + [sep];
    var uh, ut := Upper(head), Upper(tail);
    UpperAppend(x1, tail);
    UpperAppend(head, [sep]);
    UpperAppend(head, tail);
    assert Upper([sep]) == [sep];
    assert Upper(x1 + tail) == uh + [sep] + ut;
    StripAppend(uh + [sep], ut);
    StripAppend(uh, [sep]);
    StripAppend(uh, ut);
    assert StripSpaceHyphen([sep]) == [];
    assert StripSpaceHyphen(Upper(x1 + tail)) == StripSpaceHyphen(uh) + StripSpaceHyphen(ut);
    if head + tail == "" {
      assert uh == [] && ut == [];
    }
  }

  /** The lower-case variant of the example plate meets the upper-case one. */
  lemma PlateVariantLowerCase()
    ensures NormalizePlate("p111809") == "P111809"
  {
    assert Upper("p111809") == "P111809";
    PlateOfUpperClean("p111809", "P111809");
  }

  /** The result of both trim-only normalisers has no lower-case letter and no
      whitespace at either end. */
  lemma VinShape(vin: string)
    ensures NoLower(NormalizeVin(vin)) && !HasEdgeSpace(NormalizeVin(vin))
  {
    if vin != "" {
      var u := Upper(vin);
      TrimHasNoEdgeSpace(u);
      TrimIsSlice(u);
      UpperHasNoLower(vin);
      var k := |u| - |TrimStart(u)|;
      assert forall i :: 0 <= i < |Trim(u)| ==> Trim(u)[i] == u[k + i];
    }
  }

  /** VIN normalisation removes only edge whitespace: an input without it
      keeps its length, and each character, including inner spaces and
      hyphens, stays where it was (upper-cased). */
  lemma VinTrimOnly(vin: string)
    requires !HasEdgeSpace(vin)
    ensures |NormalizeVin(vin)| == |vin|
    ensures forall i :: 0 <= i < |vin| ==> NormalizeVin(vin)[i] == UpperChar(vin[i])
    ensures forall i :: 0 <= i < |vin| && IsSpaceOrHyphen(vin[i]) ==> NormalizeVin(vin)[i] == vin[i]
  {
    if vin != "" {
      assert !IsSpace(Upper(vin)[0]) && !IsSpace(Upper(vin)[|vin| - 1]);
      TrimOfUntrimmed(Upper(vin));
    }
  }

  /** A VIN typed with surrounding whitespace and lower-case letters
      normalises to the upper-cased core. */
  lemma VinDropsSurroundingSpace(core: string, c: char)
    requires IsSpace(c) && !HasEdgeSpace(core) && core != ""
    ensures NormalizeVin([c] + core + [c]) == Upper(core)
  {
    var u := Upper(core);
    UpperAppend([c] + core, [c]);
    UpperAppend([c], core);
    assert Upper([c]) == [c];
    assert !IsSpace(u[0]) && !IsSpace(u[|u| - 1]);
    TrimAround(u, c);
  }

  /** An inner space or hyphen is kept by the VIN normaliser but dropped by the
      plate normaliser: the asymmetry is deliberate. */
  lemma VinKeepsInnerSeparator(head: string, sep: char, tail: string)
    requires head != "" && tail != "" && NoLower(head + [sep] + tail)
    requires NoSpaceOrHyphen(head) && NoSpaceOrHyphen(tail) && IsSpaceOrHyphen(sep)
    ensures NormalizeVin(head + [sep] + tail) == head + [sep] + tail
    ensures NormalizePlate(head + [sep] + tail) == head + tail
  {
    var s := head + [sep] + tail;
    assert s[0] == head[0] && s[|s| - 1] == tail[|tail| - 1];
    VinOfUpperUntrimmed(s);
    PlateWithSeparator(s, head, sep, tail);
  }

  /** An upper-case VIN with no edge whitespace is its own normal form. */
  lemma VinOfUpperUntrimmed(vin: string)
    requires NoLower(vin) && !HasEdgeSpace(vin)
    ensures NormalizeVin(vin) == vin
  {
    UpperOfNoLower(vin);
    TrimOfUntrimmed(vin);
  }

  lemma {:induction false} VinIdempotent(vin: string)
    ensures NormalizeVin(NormalizeVin(vin)) == NormalizeVin(vin)
  {
    var once := NormalizeVin(vin);
    VinShape(vin);
    if once != "" {
      UpperOfNoLower(once);
      TrimOfUntrimmed(once);
    }
  }

  /** The engine-number normaliser is the VIN normaliser under another name,
      so it is idempotent as well. */
  lemma EngineIsVin(s: string)
    ensures NormalizeEngine(s) == NormalizeVin(s)
    ensures NormalizeEngine(NormalizeEngine(s)) == NormalizeEngine(s)
  {
    VinIdempotent(s);
  }
}
