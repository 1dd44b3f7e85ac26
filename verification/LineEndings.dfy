/** Line-ending normalisation of text materials (internal/catalog/catalog.go, `Digest`). */
module LineEndings {
  import opened Base
  import opened Text

  const CR: byte := 13
  const LF: byte := 10
  const CRLF: bytes := [CR, LF]

  function Normalize(data: bytes): bytes { ReplaceAll(data, CRLF, [LF]) }

  /** A checkout with Windows line endings. */
  function ToCRLF(data: bytes): bytes {
    if data == [] then []
    else (if data[0] == LF then CRLF else [data[0]]) + ToCRLF(data[1..])
  }

  /** Normalisation undoes the conversion, for every content. */
  lemma {:induction false} NormalizeUndoesToCRLF(data: bytes)
    ensures Normalize(ToCRLF(data)) == data
  {
    if data != [] {
      var converted, rest := ToCRLF(data), ToCRLF(data[1..]);
      NormalizeUndoesToCRLF(data[1..]);
      if data[0] == LF {
        assert converted[2..] == rest;
      } else {
        assert converted[1..] == rest;
        assert rest != [] ==> rest[0] == CR || rest[0] == data[1];
        assert !(CRLF <= converted) by {
          assert rest != [] ==> rest[0] != LF;
        }
      }
    }
  }

  lemma {:induction false} NormalizeShrinks(data: bytes)
    ensures |Normalize(data)| <= |data|
    ensures Contains(data, CRLF) ==> |Normalize(data)| < |data|
  {
    if data != [] {
      ContainsStep(data, CRLF);
      NormalizeShrinks(if CRLF <= data then data[2..] else data[1..]);
    }
  }

  lemma NormalizeUnchangedIff(data: bytes)
    ensures Normalize(data) == data <==> !Contains(data, CRLF)
  {
    NormalizeShrinks(data);
    if !Contains(data, CRLF) {
      ReplaceAbsent(data, CRLF, [LF]);
    }
  }

  const CRCRLF: bytes := [CR, CR, LF]

  lemma {:induction false} NormalizedHasPairIff(data: bytes)
    ensures Contains(Normalize(data), CRLF) <==> Contains(data, CRCRLF)
  {
    if data != [] {
      var out := Normalize(data);
      ContainsStep(data, CRCRLF);
      ContainsStep(out, CRLF);
      if CRLF <= data {
        assert data[0] == CR && data[1] == LF;
        ContainsStep(data[1..], CRCRLF);
        assert data[1..][1..] == data[2..] && out[1..] == Normalize(data[2..]);
        NormalizedHasPairIff(data[2..]);
      } else {
        var rest := data[1..];
        assert out[1..] == Normalize(rest);
        NormalizedHasPairIff(rest);
        assert CRLF <= out <==> CRCRLF <= data by {
          assert CRLF <= out <==> data[0] == CR && Normalize(rest) != [] && Normalize(rest)[0] == LF;
          assert CRCRLF <= data <==> data[0] == CR && CRLF <= rest;
          assert rest != [] && !(CRLF <= rest) ==> Normalize(rest)[0] == rest[0];
          assert CRLF <= data <==> data[0] == CR && rest != [] && rest[0] == LF;
        }
      }
    }
  }

  /** Normalising twice is normalising once exactly for the contents without CR CR LF. */
  lemma NormalizeIdempotentIff(data: bytes)
    ensures Normalize(Normalize(data)) == Normalize(data) <==> !Contains(data, CRCRLF)
  {
    NormalizedHasPairIff(data);
    NormalizeUnchangedIff(Normalize(data));
  }

  lemma NormalizeNotIdempotent()
    ensures Normalize(CRCRLF) == CRLF && Normalize(CRLF) == [LF]
  {
    assert CRCRLF[1..] == CRLF && CRLF[2..] == [];
    assert !(CRLF <= CRCRLF) by {
      assert CRCRLF[1] != LF;
    }
    assert Normalize(CRLF) == [LF] + Normalize([]);
    assert Normalize(CRCRLF) == [CR] + Normalize(CRLF);
  }
}
