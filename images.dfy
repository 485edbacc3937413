/** The image lists of server.js. A product stores its image URLs as one string joined with `|`.
  * The admin form sends one URL per line (split on `\n`), a CSV import cell separates them with
  * `|`; both are trimmed, emptied of blank entries and joined with `|`. The product page splits
  * the stored string on `|` again, trimming and dropping blanks. */
module Images {
  import opened Common
  import opened Text

  /** `.map(s => s.trim()).filter(Boolean)`. */
  function Pieces(xs: seq<string>): (r: seq<string>)
    ensures |r| <= |xs|
    ensures forall k :: 0 <= k < |r| ==> r[k] != "" && NoPadding(r[k])
  {
    if xs == [] then []
    else
      var t := Trim(xs[0]);
      if t == "" then Pieces(xs[1..]) else [t] + Pieces(xs[1..])
  }

  /** The list the product page shows: `(product.images || "").split("|")`, trimmed, blanks
    * dropped. */
  function ImageList(stored: string): seq<string> {
    Pieces(SplitOn(stored, '|'))
  }

  /** `safe(raw).split(sep).map(s => s.trim()).filter(Boolean).join("|")`. */
  function NormalizeImages(raw: Option<string>, sep: char): string {
    Join(Pieces(SplitOn(Safe(raw), sep)), '|')
  }

  /** A list of URLs as it can be stored: no entry empty, padded or holding a `|`. */
  predicate CleanList(xs: seq<string>) {
    forall k :: 0 <= k < |xs| ==> xs[k] != "" && NoPadding(xs[k]) && '|' !in xs[k]
  }

  /** Every character of a trimmed string is a character of the string. */
  lemma TrimChar(s: string, i: nat)
    requires i < |Trim(s)|
    ensures Trim(s)[i] in s
  {
    var a := TrimStart(s);
    var b := TrimEnd(a);
    TrimStartFacts(s);
    TrimEndFacts(a);
    assert b == a[..|b|];
    assert b[i] == a[i];
    assert a == s[|s| - |a|..];
    assert a[i] == s[|s| - |a| + i];
  }

  /** Trimming and dropping blanks keeps a character out of the pieces that was out of the
    * input. */
  lemma {:induction false} PiecesFree(xs: seq<string>, c: char)
    requires forall k :: 0 <= k < |xs| ==> c !in xs[k]
    ensures forall k :: 0 <= k < |Pieces(xs)| ==> c !in Pieces(xs)[k]
  {
    if xs != [] {
      PiecesFree(xs[1..], c);
      var t := Trim(xs[0]);
      forall i | 0 <= i < |t|
        ensures t[i] != c
      {
        TrimChar(xs[0], i);
      }
    }
  }

  /** Entries that are already trimmed and non-empty pass unchanged. */
  lemma {:induction false} PiecesFixed(xs: seq<string>)
    requires forall k :: 0 <= k < |xs| ==> xs[k] != "" && NoPadding(xs[k])
    ensures Pieces(xs) == xs
  {
    if xs != [] {
      PiecesFixed(xs[1..]);
      PiecesKeep(xs);
    }
  }

  /** A first entry that is trimmed and non-empty is kept as it is. */
  lemma PiecesKeep(xs: seq<string>)
    requires xs != [] && xs[0] != "" && NoPadding(xs[0])
    ensures Pieces(xs) == [xs[0]] + Pieces(xs[1..])
  {
    TrimUnpadded(xs[0]);
  }

  /** Joining non-empty unpadded entries with `|` gives an unpadded string. */
  lemma {:induction false} JoinUnpadded(xs: seq<string>)
    requires forall k :: 0 <= k < |xs| ==> xs[k] != "" && NoPadding(xs[k])
    ensures NoPadding(Join(xs, '|'))
    ensures xs != [] ==> Join(xs, '|') != [] && Join(xs, '|')[0] == xs[0][0]
    ensures xs != [] ==> Join(xs, '|') != [] && Join(xs, '|')[|Join(xs, '|')| - 1] == xs[|xs| - 1][|xs[|xs| - 1]| - 1]
  {
    if |xs| > 1 {
      JoinUnpadded(xs[1..]);
      var j := Join(xs, '|');
      var rest := Join(xs[1..], '|');
      assert j == xs[0] + ['|'] + rest;
      assert j[|j| - 1] == rest[|rest| - 1];
    }
  }

  /** What the product page shows of a stored clean list is that list. */
  lemma ImageListJoin(xs: seq<string>)
    requires CleanList(xs)
    ensures ImageList(Join(xs, '|')) == xs
  {
    if xs == [] {
      assert SplitOn("", '|') == [""];
      assert Trim("") == "";
    } else {
      SplitJoin(xs, '|');
      PiecesFixed(xs);
    }
  }

  /** The normalised entries hold no `|` when the separator is `|` itself (a CSV cell) or when
    * the raw text has none (the admin form). */
  lemma NormalizedClean(raw: Option<string>, sep: char)
    requires sep == '|' || raw.None? || '|' !in raw.value
    ensures CleanList(Pieces(SplitOn(Safe(raw), sep)))
  {
    var s := Safe(raw);
    var parts := SplitOn(s, sep);
    if sep != '|' {
      forall k | 0 <= k < |parts|
        ensures '|' !in parts[k]
      {
        forall i | 0 <= i < |parts[k]|
          ensures parts[k][i] != '|'
        {
          SplitChars(s, sep, k, i);
          if raw.Some? {
            var j :| 0 <= j < |s| && s[j] == parts[k][i];
            TrimChar(raw.value, j);
          }
        }
      }
    }
    PiecesFree(parts, '|');
  }

  /** Splitting a normalised list as the product page does gives back the normalised entries:
    * no empty, padded or split image. */
  lemma NormalizeRoundTrip(raw: Option<string>, sep: char)
    requires sep == '|' || raw.None? || '|' !in raw.value
    ensures ImageList(NormalizeImages(raw, sep)) == Pieces(SplitOn(Safe(raw), sep))
    ensures CleanList(ImageList(NormalizeImages(raw, sep)))
  {
    NormalizedClean(raw, sep);
    ImageListJoin(Pieces(SplitOn(Safe(raw), sep)));
  }

  /** Normalising a stored list again (as a CSV import of exported data does) changes nothing. */
  lemma NormalizeIdempotent(raw: Option<string>, sep: char)
    requires sep == '|' || raw.None? || '|' !in raw.value
    ensures NormalizeImages(Some(NormalizeImages(raw, sep)), '|') == NormalizeImages(raw, sep)
  {
    var xs := Pieces(SplitOn(Safe(raw), sep));
    NormalizedClean(raw, sep);
    JoinUnpadded(xs);
    TrimUnpadded(Join(xs, '|'));
    ImageListJoin(xs);
  }
}
