/**
 * The reply side of the job-extraction route
 * (app/api/extract-job-info/route.ts): the model's reply is split on
 * commas, each piece is trimmed, and the pieces are mapped by position to
 * title, company and location, `""` standing in for a missing piece.
 */
module ReplyFields {
  import opened VisibleText

  /** `s.split(",")`: the pieces between commas, always at least one. */
  function SplitComma(s: string): (r: seq<string>)
    ensures |r| >= 1
    ensures forall i :: 0 <= i < |r| ==> ',' !in r[i]
  {
    if s == [] then [[]]
    else
      var rest := SplitComma(s[1..]);
      if s[0] == ',' then [[]] + rest
      else [[s[0]] + rest[0]] + rest[1..]
  }

  /** `parts.join(",")`. */
  function JoinComma(parts: seq<string>): string
    requires |parts| >= 1
  {
    if |parts| == 1 then parts[0] else parts[0] + "," + JoinComma(parts[1..])
  }

  /** Splitting a comma-free piece followed by a comma starts with that piece. */
  lemma {:induction false} SplitCommaPrefix(a: string, b: string)
    requires ',' !in a
    ensures SplitComma(a + "," + b) == [a] + SplitComma(b)
  {
    if a == [] {
      assert a + "," + b == [','] + b;
      assert ([','] + b)[1..] == b;
    } else {
      assert (a + "," + b)[1..] == a[1..] + "," + b;
      SplitCommaPrefix(a[1..], b);
      assert [a[0]] + a[1..] == a;
    }
  }

  /** A comma-free text splits into itself alone. */
  lemma {:induction false} SplitCommaFree(a: string)
    requires ',' !in a
    ensures SplitComma(a) == [a]
  {
    if a != [] {
      SplitCommaFree(a[1..]);
      assert [a[0]] + a[1..] == a;
    }
  }

  /** Joining the pieces of a split gives back the text. */
  lemma {:induction false} JoinSplit(s: string)
    ensures JoinComma(SplitComma(s)) == s
  {
    if s != [] {
      var rest := SplitComma(s[1..]);
      JoinSplit(s[1..]);
      if s[0] == ',' {
        assert JoinComma([[]] + rest) == "" + "," + JoinComma(rest);
      } else {
        var r := [[s[0]] + rest[0]] + rest[1..];
        if |rest| == 1 {
          assert JoinComma(r) == [s[0]] + rest[0];
        } else {
          assert r[1..] == rest[1..];
          assert JoinComma(rest) == rest[0] + "," + JoinComma(rest[1..]);
          assert JoinComma(r) == [s[0]] + rest[0] + "," + JoinComma(rest[1..]);
        }
        assert s == [s[0]] + s[1..];
      }
    }
  }

  /** Splitting comma-free pieces joined by commas gives back the pieces. */
  lemma {:induction false} SplitJoin(parts: seq<string>)
    requires |parts| >= 1
    requires forall i :: 0 <= i < |parts| ==> ',' !in parts[i]
    ensures SplitComma(JoinComma(parts)) == parts
  {
    if |parts| == 1 {
      SplitCommaFree(parts[0]);
    } else {
      SplitJoin(parts[1..]);
      SplitCommaPrefix(parts[0], JoinComma(parts[1..]));
      assert parts == [parts[0]] + parts[1..];
    }
  }

  /** The three fields the route returns. */
  datatype ExtractedJob = ExtractedJob(title: string, company: string, location: string)

  /** `text.split(",").map((part) => part.trim())`. */
  function TrimmedParts(reply: string): (r: seq<string>)
    ensures |r| == |SplitComma(reply)|
    ensures forall i :: 0 <= i < |r| ==> r[i] == Trim(SplitComma(reply)[i])
  {
    var parts := SplitComma(reply);
    seq(|parts|, i requires 0 <= i < |parts| => Trim(parts[i]))
  }

  /** `parts[i] || ""`. */
  function PartOrEmpty(parts: seq<string>, i: nat): string
  {
    if i < |parts| then parts[i] else ""
  }

  /** Every trimmed part is comma-free and has no whitespace at either end. */
  lemma TrimmedPartsClean(reply: string)
    ensures forall i :: 0 <= i < |TrimmedParts(reply)| ==>
      ',' !in TrimmedParts(reply)[i] && NoEdgeSpace(TrimmedParts(reply)[i])
  {
    var pieces := SplitComma(reply);
    forall i | 0 <= i < |pieces|
      ensures ',' !in Trim(pieces[i])
    {
      TrimmedPieceClean(pieces[i]);
    }
  }

  /**
   * The model's reply mapped by position to title, company and location:
   * no field contains a comma or has whitespace at either end.
   */
  function ParseFields(reply: string): (r: ExtractedJob)
    ensures ',' !in r.title && NoEdgeSpace(r.title)
    ensures ',' !in r.company && NoEdgeSpace(r.company)
    ensures ',' !in r.location && NoEdgeSpace(r.location)
  {
    var parts := TrimmedParts(reply);
    TrimmedPartsClean(reply);
    ExtractedJob(PartOrEmpty(parts, 0), PartOrEmpty(parts, 1), PartOrEmpty(parts, 2))
  }

  /** Trimming keeps a slice of the text, with no whitespace at either end. */
  lemma TrimIsSlice(p: string) returns (lo: nat)
    ensures lo + |Trim(p)| <= |p| && Trim(p) == p[lo..lo + |Trim(p)|]
    ensures NoEdgeSpace(Trim(p))
  {
    var a := TrimStart(p);
    var b := TrimEnd(a);
    lo := |p| - |a|;
    assert a == p[lo..];
    assert b == a[..|b|];
    if b != [] {
      assert b[0] == a[0];
    }
  }

  /** A trimmed piece of a comma-free text is comma-free and has no edge whitespace. */
  lemma TrimmedPieceClean(p: string)
    requires ',' !in p
    ensures ',' !in Trim(p) && NoEdgeSpace(Trim(p))
  {
    var lo := TrimIsSlice(p);
    assert forall k :: 0 <= k < |Trim(p)| ==> Trim(p)[k] == p[lo + k];
  }

  /**
   * The title is the trimmed text before the first comma (the whole trimmed
   * reply when there is none); without a comma, company and location are empty.
   */
  lemma TitleIsFirstPiece(reply: string, k: nat)
    requires k < |reply| && reply[k] == ',' && ',' !in reply[..k]
    ensures ParseFields(reply).title == Trim(reply[..k])
  {
    assert reply == reply[..k] + "," + reply[k + 1..];
    SplitCommaPrefix(reply[..k], reply[k + 1..]);
  }

  lemma NoCommaIsTitleOnly(reply: string)
    requires ',' !in reply
    ensures ParseFields(reply) == ExtractedJob(Trim(reply), "", "")
  {
    SplitCommaFree(reply);
    var parts := TrimmedParts(reply);
    assert |parts| == 1 && parts[0] == Trim(reply);
  }

  /** With at least three pieces, the fields are the first three, trimmed. */
  lemma FieldsOfFirstThree(reply: string, t: string, c: string, l: string)
    requires |SplitComma(reply)| >= 3
    requires SplitComma(reply)[0] == t && SplitComma(reply)[1] == c && SplitComma(reply)[2] == l
    ensures ParseFields(reply) == ExtractedJob(Trim(t), Trim(c), Trim(l))
  {
  }

  /** The second and third pieces become company and location; later pieces are dropped. */
  lemma FieldsDropLaterPieces(t: string, c: string, l: string, rest: string)
    requires ',' !in t && ',' !in c && ',' !in l
    ensures ParseFields(t + "," + c + "," + l + "," + rest) == ExtractedJob(Trim(t), Trim(c), Trim(l))
  {
    var reply := t + "," + c + "," + l + "," + rest;
    var tail := SplitComma(rest);
    SplitCommaPrefix(l, rest);
    SplitCommaPrefix(c, l + "," + rest);
    assert reply == t + "," + (c + "," + (l + "," + rest));
    SplitCommaPrefix(t, c + "," + (l + "," + rest));
    assert SplitComma(reply) == [t] + ([c] + ([l] + tail));
    FieldsOfFirstThree(reply, t, c, l);
  }

  lemma FieldsOfThreePieces(t: string, c: string, l: string)
    requires ',' !in t && ',' !in c && ',' !in l
    ensures ParseFields(t + "," + c + "," + l) == ExtractedJob(Trim(t), Trim(c), Trim(l))
  {
    var reply := t + "," + c + "," + l;
    SplitCommaFree(l);
    SplitCommaPrefix(c, l);
    assert reply == t + "," + (c + "," + l);
    SplitCommaPrefix(t, c + "," + l);
    var pieces := [t, c, l];
    assert SplitComma(reply) == pieces;
  }

  lemma FieldsOfTwoPieces(t: string, c: string)
    requires ',' !in t && ',' !in c
    ensures ParseFields(t + "," + c) == ExtractedJob(Trim(t), Trim(c), "")
  {
    SplitCommaFree(c);
    SplitCommaPrefix(t, c);
    var pieces := [t, c];
    assert SplitComma(t + "," + c) == pieces;
  }

  /** A trimmed text keeps its value when prefixed by one space and trimmed. */
  lemma TrimAfterSpace(x: string)
    requires NoEdgeSpace(x)
    ensures Trim(" " + x) == x
  {
    assert (" " + x)[1..] == x;
  }

  /**
   * The reply format the prompt asks for parses back to its fields: for
   * trimmed, comma-free t, c and l, `t + ", " + c + ", " + l` gives (t, c, l).
   */
  lemma ParseRoundTrip(t: string, c: string, l: string)
    requires ',' !in t && ',' !in c && ',' !in l
    requires NoEdgeSpace(t) && NoEdgeSpace(c) && NoEdgeSpace(l)
    ensures ParseFields(t + ", " + c + ", " + l) == ExtractedJob(t, c, l)
  {
    assert t + ", " + c + ", " + l == t + "," + (" " + c) + "," + (" " + l);
    assert ',' !in " " + c && ',' !in " " + l;
    FieldsOfThreePieces(t, " " + c, " " + l);
    TrimAfterSpace(c);
    TrimAfterSpace(l);
  }

  /**
   * A reply that ends in a comma after its title, such as "Engineer,",
   * gives that title with empty company and location.
   */
  lemma ParseTrailingComma(t: string)
    requires ',' !in t && NoEdgeSpace(t)
    ensures ParseFields(t + ",") == ExtractedJob(t, "", "")
  {
    assert t + "," == t + "," + "";
    FieldsOfTwoPieces(t, "");
    assert Trim("") == "";
  }
}
