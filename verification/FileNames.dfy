/** Names of uploaded files: the three-stage normaliser and the plain form it refines. */
module FileNames {
  import opened Text

  lemma {:induction false} SplitInTwoHasSlash(s: string, sep: string)
    requires sep != "" && '/' in sep && |Split(s, sep)| > 1
    ensures '/' in s
    decreases |s|
  {
    if sep <= s {
      assert s[..|sep|] == sep;
    } else if s == "" {
    } else {
      SplitInTwoHasSlash(s[1..], sep);
    }
  }

  /** One character before a split: it joins the only piece, or the last piece stays as it is. */
  lemma LastPieceStep(s: string, sep: string)
    requires sep != "" && !(sep <= s) && s != ""
    ensures |Split(s[1..], sep)| == 1 ==> Last(Split(s, sep)) == s
    ensures |Split(s[1..], sep)| > 1 ==> Last(Split(s, sep)) == Last(Split(s[1..], sep))
  {
    if |Split(s[1..], sep)| == 1 {
      JoinUndoesSplit(s, sep);
      assert |Split(s, sep)| == 1;
    }
  }

  /** Cutting at a separator that ends in a slash never loses the name after the last slash. */
  lemma {:induction false} LastPieceKeepsBaseName(s: string, directory: string)
    ensures BaseName(Last(Split(s, directory + "/"))) == BaseName(s)
    decreases |s|
  {
    var sep := directory + "/";
    if sep <= s {
      var rest := s[|sep|..];
      LastPieceKeepsBaseName(rest, directory);
      assert s == directory + "/" + rest;
      BaseNameAfterSlash(directory, rest);
    } else if s == "" {
    } else {
      LastPieceStep(s, sep);
      if |Split(s[1..], sep)| > 1 {
        LastPieceKeepsBaseName(s[1..], directory);
        SplitInTwoHasSlash(s[1..], sep);
      }
    }
  }

  lemma LastSlashPiece(s: string)
    ensures Last(Split(s, "/")) == BaseName(s)
  {
    LastPieceKeepsBaseName(s, "");
    assert "" + "/" == "/";
    PiecesLackSeparator(s, '/');
  }

  lemma DropTempKeepsBaseName(s: string)
    requires "temp/" <= s
    ensures BaseName(s[5..]) == BaseName(s)
  {
    assert s == "temp" + "/" + s[5..];
    BaseNameAfterSlash("temp", s[5..]);
  }

  /** `s.includes(pat)`. */
  predicate Includes(s: string, pat: string) {
    exists i :: 0 <= i <= |s| && pat <= s[i..]
  }

  /**
   The staged normaliser, for every name and every bucket name: the text after the last slash.
   The proxy repeats the same stages inline.
   */
  method NormalizeFileName(fileName: string, bucketName: string) returns (name: string)
    ensures name == BaseName(fileName)
  {
    var normalized := fileName;
    if Includes(normalized, bucketName + "/") {
      LastPieceKeepsBaseName(normalized, bucketName);
      normalized := Last(Split(normalized, bucketName + "/"));
    }
    if "temp/" <= normalized {
      DropTempKeepsBaseName(normalized);
      normalized := normalized[5..];
    }
    LastSlashPiece(normalized);
    name := Last(Split(normalized, "/"));
  }

  /** A normalised name is its own normal form, under every directory. */
  lemma NormalFormIsStable(fileName: string, directory: string)
    ensures BaseName(BaseName(fileName)) == BaseName(fileName)
    ensures BaseName(directory + "/" + BaseName(fileName)) == BaseName(fileName)
  {
    BaseNameAfterSlash(directory, BaseName(fileName));
  }

  // ----- the comma-separated list of a request -----

  /** `split(',').map(trim).filter(Boolean)`. */
  function NamesIn(images: string): seq<string> {
    NonBlank(Split(images, ","))
  }

  function NonBlank(pieces: seq<string>): (names: seq<string>)
    ensures forall n :: n in names ==> n != ""
  {
    if pieces == [] then []
    else if Trim(pieces[0]) == "" then NonBlank(pieces[1..])
    else [Trim(pieces[0])] + NonBlank(pieces[1..])
  }

  /** How many of the first `n` pieces are not blank: the place of piece `n` among the names. */
  function Place(pieces: seq<string>, n: nat): nat
    requires n <= |pieces|
  {
    if n == 0 then 0 else Place(pieces, n - 1) + (if Blank(pieces[n - 1]) then 0 else 1)
  }

  /** A piece of nothing but white space. */
  predicate Blank(piece: string) {
    forall c :: c in piece ==> IsSpace(c)
  }

  lemma BlankIff(piece: string)
    ensures Trim(piece) == "" <==> Blank(piece)
  {
    var i, j := TrimIsMiddle(piece);
    if i < j {
      assert piece[i] in piece;
    }
  }

  lemma {:induction false} PlaceTail(pieces: seq<string>, n: nat)
    requires 1 <= n <= |pieces|
    ensures Place(pieces, n) == (if Blank(pieces[0]) then 0 else 1) + Place(pieces[1..], n - 1)
  {
    if n == 1 {
      assert Place(pieces, 0) == 0 && Place(pieces[1..], 0) == 0;
    } else {
      PlaceTail(pieces, n - 1);
      assert pieces[1..][n - 2] == pieces[n - 1];
    }
  }

  /** The names are the pieces that are not blank, each trimmed, all of them, and in their order. */
  lemma {:induction false} NonBlankAt(pieces: seq<string>)
    ensures |NonBlank(pieces)| == Place(pieces, |pieces|)
    ensures forall i :: 0 <= i < |pieces| && !Blank(pieces[i]) ==>
      Place(pieces, i) < |NonBlank(pieces)| && NonBlank(pieces)[Place(pieces, i)] == Trim(pieces[i])
  {
    if pieces == [] {
    } else {
      var rest := pieces[1..];
      NonBlankAt(rest);
      BlankIff(pieces[0]);
      PlaceTail(pieces, |pieces|);
      forall i | 0 <= i < |pieces| && !Blank(pieces[i])
        ensures Place(pieces, i) < |NonBlank(pieces)| && NonBlank(pieces)[Place(pieces, i)] == Trim(pieces[i])
      {
        if i > 0 {
          PlaceTail(pieces, i);
          assert rest[i - 1] == pieces[i];
        }
      }
    }
  }

  /** The names of a list: each piece between two commas that is not blank, trimmed, in order. */
  lemma NamesAreThePieces(images: string)
    ensures var (pieces, names) := (Split(images, ","), NamesIn(images));
      && Join(pieces, ",") == images && (forall p :: p in pieces ==> ',' !in p)
      && |names| == Place(pieces, |pieces|)
      && forall i :: 0 <= i < |pieces| && !Blank(pieces[i]) ==>
           Place(pieces, i) < |names| && names[Place(pieces, i)] == Trim(pieces[i])
  {
    JoinUndoesSplit(images, ",");
    PiecesLackSeparator(images, ',');
    NonBlankAt(Split(images, ","));
  }

  lemma {:induction false} NonBlankKeepsAbsence(pieces: seq<string>, c: char)
    requires forall p :: p in pieces ==> c !in p
    ensures forall n :: n in NonBlank(pieces) ==> c !in n
  {
    if pieces == [] {
    } else {
      TrimKeepsAbsence(pieces[0], c);
      NonBlankKeepsAbsence(pieces[1..], c);
    }
  }

  lemma NamesLackComma(images: string)
    ensures forall n :: n in NamesIn(images) ==> ',' !in n
  {
    PiecesLackSeparator(images, ',');
    NonBlankKeepsAbsence(Split(images, ","), ',');
  }

  lemma {:induction false} BaseNameKeepsAbsence(s: string, c: char)
    requires c !in s
    ensures c !in BaseName(s)
  {
    if '/' !in s {
    } else {
      BaseNameKeepsAbsence(s[1..], c);
    }
  }

  /** `names.map(p => p.split('/').pop())`. */
  function BaseNames(names: seq<string>): (r: seq<string>)
    ensures |r| == |names|
  {
    seq(|names|, i requires 0 <= i < |names| => BaseName(names[i]))
  }
}
