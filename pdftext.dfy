/** `normalize_for_pdf`: the twelve Turkish letters the report font lacks are
    replaced, one replacement after another, by their ASCII counterparts. */
module PdfText {

  /** The replacement table in its declared order: Turkish letter, ASCII letter. */
  const Replacements: seq<(char, char)> := [
    ('İ', 'I'), ('ı', 'i'), ('Ş', 'S'), ('ş', 's'), ('Ğ', 'G'), ('ğ', 'g'),
    ('Ü', 'U'), ('ü', 'u'), ('Ö', 'O'), ('ö', 'o'), ('Ç', 'C'), ('ç', 'c')
  ]

  predicate IsKey(reps: seq<(char, char)>, c: char)
  {
    exists i :: 0 <= i < |reps| && reps[i].0 == c
  }

  /** No replacement produces a letter that some replacement would replace again. */
  predicate NoValueIsKey(reps: seq<(char, char)>)
  {
    forall i :: 0 <= i < |reps| ==> !IsKey(reps, reps[i].1)
  }

  predicate DistinctKeys(reps: seq<(char, char)>)
  {
    forall i, j :: 0 <= i < j < |reps| ==> reps[i].0 != reps[j].0
  }

  /** The table maps twelve different Turkish letters to ASCII letters, none of them a key. */
  lemma ReplacementsShape()
    ensures |Replacements| == 12 && DistinctKeys(Replacements) && NoValueIsKey(Replacements)
    ensures forall i :: 0 <= i < |Replacements| ==> Replacements[i].0 as int >= 128 && Replacements[i].1 as int < 128
  {
    assert forall i :: 0 <= i < |Replacements| ==> Replacements[i].0 as int >= 128 && Replacements[i].1 as int < 128;
  }

  /** The table entry for `c` (the first, when keys repeat), or `c` itself. */
  function Lookup(reps: seq<(char, char)>, c: char): char
  {
    if reps == [] then c else if reps[0].0 == c then reps[0].1 else Lookup(reps[1..], c)
  }

  /** What the report shows for `c`. */
  function Ascii(c: char): char
  {
    Lookup(Replacements, c)
  }

  /** `text` with every character transliterated on its own. */
  function Transliterated(text: string): (r: string)
    ensures |r| == |text|
  {
    seq(|text|, i requires 0 <= i < |text| => Ascii(text[i]))
  }

  /** `text.replace(a, b)` for one character `a` and one character `b`. */
  function ReplaceChar(text: string, a: char, b: char): string
  {
    seq(|text|, i requires 0 <= i < |text| => if text[i] == a then b else text[i])
  }

  /** What one character becomes after the replacements `reps` are applied in turn. */
  function Sequential(reps: seq<(char, char)>, c: char): char
  {
    if reps == [] then c
    else
      var d := Sequential(reps[..|reps| - 1], c);
      if d == reps[|reps| - 1].0 then reps[|reps| - 1].1 else d
  }

  lemma {:induction false} LookupCases(reps: seq<(char, char)>, c: char)
    ensures !IsKey(reps, c) ==> Lookup(reps, c) == c
    ensures IsKey(reps, c) ==> exists i :: 0 <= i < |reps| && reps[i].0 == c && Lookup(reps, c) == reps[i].1
  {
    if reps != [] {
      LookupCases(reps[1..], c);
      if reps[0].0 != c {
        if IsKey(reps, c) {
          var i :| 0 <= i < |reps| && reps[i].0 == c;
          assert reps[1..][i - 1].0 == c;
          var m :| 0 <= m < |reps[1..]| && reps[1..][m].0 == c && Lookup(reps[1..], c) == reps[1..][m].1;
          assert reps[m + 1].0 == c;
        } else {
          assert !IsKey(reps[1..], c) by {
            forall m | 0 <= m < |reps[1..]| ensures reps[1..][m].0 != c {
              assert reps[1..][m] == reps[m + 1];
            }
          }
        }
      }
    }
  }

  lemma {:induction false} LookupSnoc(reps: seq<(char, char)>, last: (char, char), c: char)
    ensures Lookup(reps + [last], c) == if IsKey(reps, c) then Lookup(reps, c) else Lookup([last], c)
  {
    if reps == [] {
      assert reps + [last] == [last];
    } else {
      assert (reps + [last])[1..] == reps[1..] + [last];
      LookupSnoc(reps[1..], last, c);
      if reps[0].0 != c {
        assert IsKey(reps, c) <==> IsKey(reps[1..], c) by {
          if IsKey(reps, c) {
            var i :| 0 <= i < |reps| && reps[i].0 == c;
            assert reps[1..][i - 1].0 == c;
          }
          if IsKey(reps[1..], c) {
            var m :| 0 <= m < |reps[1..]| && reps[1..][m].0 == c;
            assert reps[m + 1].0 == c;
          }
        }
      } else {
        assert IsKey(reps, c) by { assert reps[0].0 == c; }
      }
    }
  }

  /** When no replacement creates a letter that a replacement removes, applying
      the table entry by entry is the same as looking each character up once. */
  lemma {:induction false} SequentialIsLookup(reps: seq<(char, char)>, c: char)
    requires NoValueIsKey(reps)
    ensures Sequential(reps, c) == Lookup(reps, c)
    decreases |reps|
  {
    if reps != [] {
      var init, last := reps[..|reps| - 1], reps[|reps| - 1];
      assert reps == init + [last];
      assert NoValueIsKey(init) by {
        forall i | 0 <= i < |init| ensures !IsKey(init, init[i].1) {
          assert init[i] == reps[i];
        }
      }
      SequentialIsLookup(init, c);
      LookupSnoc(init, last, c);
      LookupCases(init, c);
      if IsKey(init, c) {
        var i :| 0 <= i < |init| && init[i].0 == c && Lookup(init, c) == init[i].1;
        assert reps[i] == init[i];
        assert last == reps[|reps| - 1];
        assert Lookup(init, c) != last.0;
      }
    }
  }

  /** `normalize_for_pdf`: the loop applies the table's replacements to the whole text, in table order. */
  method NormalizeForPdf(text: string) returns (r: string)
    ensures r == Transliterated(text)
  {
    r := text;
    for i := 0 to |Replacements|
      invariant |r| == |text|
      invariant forall j :: 0 <= j < |text| ==> r[j] == Sequential(Replacements[..i], text[j])
    {
      assert Replacements[..i + 1][..i] == Replacements[..i];
      r := ReplaceChar(r, Replacements[i].0, Replacements[i].1);
    }
    assert Replacements[..|Replacements|] == Replacements;
    ReplacementsShape();
    forall j | 0 <= j < |text| ensures r[j] == Transliterated(text)[j] {
      SequentialIsLookup(Replacements, text[j]);
    }
  }

  /** Each of the twelve letters becomes its ASCII counterpart and every other character stays. */
  lemma AsciiSpec(c: char)
    ensures forall i :: 0 <= i < |Replacements| && Replacements[i].0 == c ==> Ascii(c) == Replacements[i].1
    ensures !IsKey(Replacements, c) ==> Ascii(c) == c
  {
    ReplacementsShape();
    LookupCases(Replacements, c);
  }

  /** The result contains none of the twelve letters. */
  lemma NoTurkishLetterLeft(text: string)
    ensures forall j :: 0 <= j < |text| ==> !IsKey(Replacements, Transliterated(text)[j])
  {
    ReplacementsShape();
    forall j | 0 <= j < |text| ensures !IsKey(Replacements, Transliterated(text)[j]) {
      LookupCases(Replacements, text[j]);
    }
  }

  /** Normalising twice is normalising once. */
  lemma NormalizeIdempotent(text: string)
    ensures Transliterated(Transliterated(text)) == Transliterated(text)
  {
    NoTurkishLetterLeft(text);
    var once := Transliterated(text);
    forall j | 0 <= j < |text| ensures Transliterated(once)[j] == once[j] {
      LookupCases(Replacements, once[j]);
    }
  }
}
