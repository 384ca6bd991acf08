/** `tr_karakter_duzelt`: the Turkish-to-ASCII transliteration applied to
    every text that goes into the PDF report. It is the character map that
    `str.maketrans` builds from two twelve-letter strings; a value that is
    not a string is only stringified. */
module Transliteration {
  import opened Text

  /** The two strings given to `str.maketrans`: letter i of `Turkish`
      becomes letter i of `Ascii`. */
  const Turkish: string := "ğĞıİşŞçÇöÖüÜ"
  const Ascii: string := "gGiIsScCoOuU"

  /** A table cell as pandas hands it over: text, or an integer when the
      whole column was read as numbers. */
  datatype Cell = Str(s: string) | Int(n: int)

  function TrChar(c: char): char
  {
    match c
    case 'ğ' => 'g'
    case 'Ğ' => 'G'
    case 'ı' => 'i'
    case 'İ' => 'I'
    case 'ş' => 's'
    case 'Ş' => 'S'
    case 'ç' => 'c'
    case 'Ç' => 'C'
    case 'ö' => 'o'
    case 'Ö' => 'O'
    case 'ü' => 'u'
    case 'Ü' => 'U'
    case _ => c
  }

  /** `text.translate(ceviri)` for a string. */
  function TranslitText(s: string): string
  {
    if s == [] then [] else [TrChar(s[0])] + TranslitText(s[1..])
  }

  /** `tr_karakter_duzelt(text)`: strings are transliterated, anything
      else is returned as `str(text)` without translation. */
  function Transliterate(v: Cell): (r: string)
    ensures v.Int? ==> r == IntToString(v.n)
    ensures v.Str? ==> |r| == |v.s|
  {
    match v
    case Str(s) => TranslitAt(s); TranslitText(s)
    case Int(n) => IntToString(n)
  }

  /** The map of `maketrans`: each of the twelve letters goes to the letter
      at the same position of the ASCII string; every other character,
      including â, î and û, stays as it is. */
  lemma TrCharTable()
    ensures forall i :: 0 <= i < |Turkish| ==> TrChar(Turkish[i]) == Ascii[i]
  {
    assert |Turkish| == 12;
    forall i | 0 <= i < |Turkish|
      ensures TrChar(Turkish[i]) == Ascii[i]
    {
      if i == 0 {} else if i == 1 {} else if i == 2 {} else if i == 3 {}
      else if i == 4 {} else if i == 5 {} else if i == 6 {} else if i == 7 {}
      else if i == 8 {} else if i == 9 {} else if i == 10 {} else {}
    }
  }

  /** Every character outside the twelve is kept, and no character is
      mapped to one of the twelve. */
  lemma TrCharOthers(c: char)
    ensures c !in Turkish ==> TrChar(c) == c
    ensures TrChar(c) !in Turkish
  {
  }

  /** Translation is character by character: the length is kept and
      position i of the result is the image of position i of the input. */
  lemma {:induction false} TranslitAt(s: string)
    ensures |TranslitText(s)| == |s|
    ensures forall i :: 0 <= i < |s| ==> TranslitText(s)[i] == TrChar(s[i])
  {
    if s != [] {
      TranslitAt(s[1..]);
    }
  }

  /** After translation none of the twelve letters is left, and
      translating again changes nothing. */
  lemma TranslitIdempotent(s: string)
    ensures forall i :: 0 <= i < |TranslitText(s)| ==> TranslitText(s)[i] !in Turkish
    ensures TranslitText(TranslitText(s)) == TranslitText(s)
  {
    var t := TranslitText(s);
    TranslitAt(s);
    TranslitAt(t);
    forall i | 0 <= i < |t|
      ensures t[i] !in Turkish && TranslitText(t)[i] == t[i]
    {
      TrCharOthers(s[i]);
      TrCharOthers(t[i]);
    }
  }

  /** Text without any of the twelve letters is left unchanged. */
  lemma TranslitKeepsOthers(s: string)
    requires forall i :: 0 <= i < |s| ==> s[i] !in Turkish
    ensures TranslitText(s) == s
  {
    TranslitAt(s);
    forall i | 0 <= i < |s|
      ensures TranslitText(s)[i] == s[i]
    {
      TrCharOthers(s[i]);
    }
  }

  lemma TranslitConcat(a: string, b: string)
    ensures TranslitText(a + b) == TranslitText(a) + TranslitText(b)
  {
    TranslitAt(a);
    TranslitAt(b);
    TranslitAt(a + b);
  }
}
