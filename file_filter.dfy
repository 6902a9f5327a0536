/**
 * The upload filter every image route puts in front of its handler: a size
 * limit, and a type check made of one unanchored pattern applied to the
 * declared MIME type and to the lower-cased original file name.
 */
module FileFilter {
  import opened Text

  /** The largest accepted upload, in bytes: 5 MiB. */
  const MaxFileSize := 5 * 1024 * 1024

  const RejectMessage := "Only JPEG, JPG, and PNG files are allowed!"

  /** What the filter tells the upload library: keep the file, or fail with an error. */
  datatype Decision = Accept | Reject(message: string)

  /** `/jpeg|jpg|png/.test(s)`: one of the three words occurs anywhere in `s`. */
  predicate AllowedType(s: string)
  {
    Contains(s, "jpeg") || Contains(s, "jpg") || Contains(s, "png")
  }

  /** `fileFilter`: the MIME type is tested as sent, the file name after lower-casing. */
  function Filter(mimetype: string, originalName: string): (d: Decision)
    ensures d.Accept? <==> AllowedType(mimetype) && AllowedType(ToLower(originalName))
    ensures d.Reject? ==> d.message == RejectMessage
  {
    if AllowedType(mimetype) && AllowedType(ToLower(originalName)) then Accept else Reject(RejectMessage)
  }

  /** A word whose first letter does not occur in `s` does not occur in `s`. */
  lemma FirstLetterMissing(s: string, word: string)
    requires |word| > 0 && word[0] !in s
    ensures !Contains(s, word)
  {
    forall i: nat
      ensures !OccursAt(s, word, i)
    {
      if i + |word| <= |s| {
        assert s[i..i + |word|][0] == s[i];
      }
    }
    ContainsIffOccurs(s, word);
  }

  /** `word` sits at position `i` of `s`, so the search finds it. */
  lemma FoundAt(s: string, word: string, i: nat)
    requires i + |word| <= |s| && s[i..i + |word|] == word
    ensures Contains(s, word)
  {
    ContainsIffOccurs(s, word);
    assert OccursAt(s, word, i);
  }

  /** The MIME type is not lower-cased: an upper-case "IMAGE/PNG" is refused whatever the file is called. */
  lemma UpperCaseMimetypeRejected(originalName: string)
    ensures Filter("IMAGE/PNG", originalName) == Reject(RejectMessage)
  {
    var m := "IMAGE/PNG";
    assert 'j' !in m && 'p' !in m;
    FirstLetterMissing(m, "jpeg");
    FirstLetterMissing(m, "jpg");
    FirstLetterMissing(m, "png");
  }

  /** The file name is lower-cased first: "COVER.PNG" sent as "image/png" is accepted. */
  lemma UpperCaseFileNameAccepted()
    ensures Filter("image/png", "COVER.PNG") == Accept
  {
    var m := "image/png";
    assert m[6..9] == "png";
    FoundAt(m, "png", 6);
    var n := ToLower("COVER.PNG");
    assert n[6] == 'p' && n[7] == 'n' && n[8] == 'g';
    assert n[6..9] == "png";
    FoundAt(n, "png", 6);
  }

  /** The pattern is unanchored: the word may sit anywhere in the name, not only as its extension. */
  lemma WordAnywhereInNameAccepted()
    ensures Filter("image/jpeg", "png-notes.txt") == Accept
  {
    var m := "image/jpeg";
    assert m[6..10] == "jpeg";
    FoundAt(m, "jpeg", 6);
    var n := ToLower("png-notes.txt");
    assert n[0] == 'p' && n[1] == 'n' && n[2] == 'g';
    assert n[0..3] == "png";
    FoundAt(n, "png", 0);
  }

  /** Lower-casing the name beforehand changes nothing: the filter ignores the case of the file name. */
  lemma {:induction false} NameCaseIgnored(mimetype: string, originalName: string)
    ensures Filter(mimetype, originalName) == Filter(mimetype, ToLower(originalName))
  {
    assert ToLower(ToLower(originalName)) == ToLower(originalName);
  }
}
