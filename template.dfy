/** The URL template of the vendor's archive and `str.format` over it. */
module Template {

  /** The replacement fields of the URL template. */
  datatype Key = StateLower | Yr | Mo | SDt | StateUpper | UrlIndex

  /** A piece of a `str.format` template: literal text or a named replacement field. */
  datatype Piece = Lit(text: string) | Field(key: Key)

  const URL_PREFIX: string := "http://www2.conectiv.com/cpd/tps/archives/"

  /** `self.delmarva_url`. */
  const DELMARVA_URL: seq<Piece> := [
    Lit(URL_PREFIX), Field(StateLower), Lit("/"), Field(Yr), Lit("/"), Field(Mo),
    Lit("/"), Field(SDt), Field(StateUpper), Lit("A"), Field(UrlIndex), Lit(".txt")]

  /** The values given to `str.format`, one per field. */
  datatype Params = Params(stateLower: string, yr: string, mo: string, sDt: string,
                           stateUpper: string, urlIndex: string)

  function FieldValue(p: Params, k: Key): string {
    match k
    case StateLower => p.stateLower
    case Yr => p.yr
    case Mo => p.mo
    case SDt => p.sDt
    case StateUpper => p.stateUpper
    case UrlIndex => p.urlIndex
  }

  function PieceText(piece: Piece, p: Params): string {
    match piece
    case Lit(s) => s
    case Field(k) => FieldValue(p, k)
  }

  /** `template.format(**params)`. */
  function Format(t: seq<Piece>, p: Params): string {
    FormatFrom(t, 0, p)
  }

  function FormatFrom(t: seq<Piece>, i: nat, p: Params): string
    decreases |t| - i
  {
    if i >= |t| then [] else PieceText(t[i], p) + FormatFrom(t, i + 1, p)
  }

  /** Regrouping a concatenation of twelve strings. */
  lemma Regroup12(s1: string, s2: string, s3: string, s4: string, s5: string, s6: string,
                  s7: string, s8: string, s9: string, s10: string, s11: string, s12: string)
    ensures s1 + (s2 + (s3 + (s4 + (s5 + (s6 + (s7 + (s8 + (s9 + (s10 + (s11 + (s12 + []))))))))))) ==
            s1 + s2 + s3 + s4 + s5 + s6 + s7 + s8 + s9 + s10 + s11 + s12
  {
  }

  /** The template filled in, field by field. */
  lemma FormatUrl(p: Params)
    ensures Format(DELMARVA_URL, p) ==
      URL_PREFIX + p.stateLower + "/" + p.yr + "/" + p.mo + "/" + p.sDt + p.stateUpper + "A" + p.urlIndex + ".txt"
  {
    var t := DELMARVA_URL;
    assert FormatFrom(t, 12, p) == [];
    assert FormatFrom(t, 11, p) == ".txt" + FormatFrom(t, 12, p);
    assert FormatFrom(t, 10, p) == p.urlIndex + FormatFrom(t, 11, p);
    assert FormatFrom(t, 9, p) == "A" + FormatFrom(t, 10, p);
    assert FormatFrom(t, 8, p) == p.stateUpper + FormatFrom(t, 9, p);
    assert FormatFrom(t, 7, p) == p.sDt + FormatFrom(t, 8, p);
    assert FormatFrom(t, 6, p) == "/" + FormatFrom(t, 7, p);
    assert FormatFrom(t, 5, p) == p.mo + FormatFrom(t, 6, p);
    assert FormatFrom(t, 4, p) == "/" + FormatFrom(t, 5, p);
    assert FormatFrom(t, 3, p) == p.yr + FormatFrom(t, 4, p);
    assert FormatFrom(t, 2, p) == "/" + FormatFrom(t, 3, p);
    assert FormatFrom(t, 1, p) == p.stateLower + FormatFrom(t, 2, p);
    assert FormatFrom(t, 0, p) == URL_PREFIX + FormatFrom(t, 1, p);
    Regroup12(URL_PREFIX, p.stateLower, "/", p.yr, "/", p.mo, "/", p.sDt, p.stateUpper, "A", p.urlIndex, ".txt");
  }
}
