/** The `ids` query parameter of the bulk destroy: the pattern `^\d+(,\d+)*$`
    (ASCII digits) and the comma split applied to an accepted value. */
module IdsQuery {

  predicate IsDigit(c: char) {
    '0' <= c <= '9'
  }

  predicate AllDigits(s: string) {
    forall i :: 0 <= i < |s| ==> IsDigit(s[i])
  }

  /** One `\d+`: a non-empty run of digits. */
  predicate DigitRun(s: string) {
    |s| > 0 && AllDigits(s)
  }

  predicate AllDigitRuns(segs: seq<string>) {
    forall k :: 0 <= k < |segs| ==> DigitRun(segs[k])
  }

  /** The whole pattern `^\d+(,\d+)*$`, read left to right: a digit, then the rest of
      the run. */
  predicate MatchesIds(s: string): (r: bool)
    decreases |s|, 1
    ensures r ==> |s| > 0 && IsDigit(s[0]) && IsDigit(s[|s| - 1])
  {
    |s| > 0 && IsDigit(s[0]) && InRun(s[1..])
  }

  /** Inside a digit run: the input may end, continue the run, or start a new run
      after a single comma. */
  predicate InRun(s: string): (r: bool)
    decreases |s|, 0
    ensures r && |s| > 0 ==> IsDigit(s[|s| - 1])
  {
    if |s| == 0 then true
    else if IsDigit(s[0]) then InRun(s[1..])
    else if s[0] == ',' then MatchesIds(s[1..])
    else false
  }

  /** `s.split(',')`: the maximal comma-free pieces, always at least one. */
  function Split(s: string): (segs: seq<string>)
    ensures |segs| > 0
  {
    if |s| == 0 then [""]
    else
      var rest := Split(s[1..]);
      if s[0] == ',' then [""] + rest
      else [[s[0]] + rest[0]] + rest[1..]
  }

  /** `','.join(segs)`. */
  function Join(segs: seq<string>): string
    requires |segs| > 0
  {
    if |segs| == 1 then segs[0] else segs[0] + "," + Join(segs[1..])
  }

  /** The integer Django reads from an all-digit segment, most significant digit first. */
  function ParseNat(s: string): nat
    requires AllDigits(s)
  {
    if |s| == 0 then 0
    else ParseNat(s[..|s| - 1]) * 10 + (s[|s| - 1] as int - '0' as int)
  }

  /** Splitting loses nothing: joining the pieces with commas gives back the input. */
  lemma {:induction false} JoinSplit(s: string)
    ensures Join(Split(s)) == s
  {
    if |s| > 0 {
      var rest := Split(s[1..]);
      JoinSplit(s[1..]);
      if s[0] == ',' {
        assert ([""] + rest)[1..] == rest;
      } else {
        var segs := [[s[0]] + rest[0]] + rest[1..];
        assert segs[1..] == rest[1..];
        if |rest| > 1 {
          assert rest[1..][..] == rest[1..];
          assert Join(rest) == rest[0] + "," + Join(rest[1..]);
        }
      }
    }
  }

  /** No piece of a split holds a comma. */
  lemma {:induction false} SplitCommaFree(s: string)
    ensures forall k :: 0 <= k < |Split(s)| ==> ',' !in Split(s)[k]
  {
    if |s| > 0 {
      SplitCommaFree(s[1..]);
    }
  }

  /** The run state accepts exactly when the first piece is all digits (possibly empty)
      and every later piece is a digit run. */
  lemma {:induction false} InRunSplit(s: string)
    ensures InRun(s) <==> AllDigits(Split(s)[0]) && AllDigitRuns(Split(s)[1..])
    decreases |s|, 0
  {
    if |s| > 0 {
      var rest := Split(s[1..]);
      if IsDigit(s[0]) {
        InRunSplit(s[1..]);
        var first := [s[0]] + rest[0];
        assert AllDigits(first) <==> AllDigits(rest[0]) by {
          assert forall i :: 0 < i < |first| ==> first[i] == rest[0][i - 1];
          if AllDigits(rest[0]) {
            forall i | 0 <= i < |first| ensures IsDigit(first[i]) {
              if i > 0 { assert first[i] == rest[0][i - 1]; }
            }
          }
          if AllDigits(first) {
            forall i | 0 <= i < |rest[0]| ensures IsDigit(rest[0][i]) {
              assert first[i + 1] == rest[0][i];
            }
          }
        }
        assert Split(s)[1..] == rest[1..];
      } else if s[0] == ',' {
        MatchesSplit(s[1..]);
        assert Split(s)[1..] == rest;
      } else {
        assert Split(s)[0][0] == s[0];
      }
    }
  }

  /** The pattern accepts exactly the strings whose pieces are all digit runs: no empty
      piece (so no leading, trailing or doubled comma) and nothing but digits. */
  lemma {:induction false} MatchesSplit(s: string)
    ensures MatchesIds(s) <==> AllDigitRuns(Split(s))
    decreases |s|, 1
  {
    if |s| == 0 {
      assert !DigitRun(Split(s)[0]);
    } else {
      var rest := Split(s[1..]);
      if s[0] == ',' {
        assert Split(s)[0] == "";
        assert !DigitRun(Split(s)[0]);
      } else {
        var first := [s[0]] + rest[0];
        assert Split(s) == [first] + rest[1..];
        if IsDigit(s[0]) {
          InRunSplit(s[1..]);
          if AllDigits(rest[0]) {
            forall i | 0 <= i < |first| ensures IsDigit(first[i]) {
              if i > 0 { assert first[i] == rest[0][i - 1]; }
            }
          }
          if AllDigits(first) {
            forall i | 0 <= i < |rest[0]| ensures IsDigit(rest[0][i]) {
              assert first[i + 1] == rest[0][i];
            }
          }
          if AllDigitRuns(Split(s)) {
            assert DigitRun(Split(s)[0]) && Split(s)[0] == first;
            forall k | 0 <= k < |rest[1..]| ensures DigitRun(rest[1..][k]) {
              assert Split(s)[k + 1] == rest[1..][k];
            }
          }
          if AllDigits(rest[0]) && AllDigitRuns(rest[1..]) {
            forall k | 0 <= k < |Split(s)| ensures DigitRun(Split(s)[k]) {
              if k > 0 { assert Split(s)[k] == rest[1..][k - 1]; }
            }
          }
        } else {
          assert first[0] == s[0];
          assert !DigitRun(Split(s)[0]);
        }
      }
    }
  }

  /** An accepted value splits into digit runs that join back to it, and every one
      of them has a number. */
  lemma {:induction false} AcceptedSplitsIntoIds(s: string)
    requires MatchesIds(s)
    ensures AllDigitRuns(Split(s))
    ensures Join(Split(s)) == s
  {
    MatchesSplit(s);
    JoinSplit(s);
  }

  /** What the bulk destroy makes of the parameter: absent or empty gives no ids, an
      accepted value its pieces, anything else the "Invalid ids" parse error. */
  datatype IdsParse = NoIds | Ids(segs: seq<string>) | InvalidIds

  function ParseIds(ids: string): (p: IdsParse)
    ensures p == NoIds <==> ids == ""
    ensures p == InvalidIds <==> ids != "" && !MatchesIds(ids)
    ensures p.Ids? ==> p.segs == Split(ids)
  {
    if ids == "" then NoIds
    else if !MatchesIds(ids) then InvalidIds
    else Ids(Split(ids))
  }

  /** The pieces of an accepted value are all digit runs, at least one of them, and
      joining them gives back the value. */
  lemma {:induction false} ParsedIdsAreDigitRuns(ids: string)
    requires ParseIds(ids).Ids?
    ensures |ParseIds(ids).segs| > 0
    ensures AllDigitRuns(ParseIds(ids).segs)
    ensures Join(ParseIds(ids).segs) == ids
  {
    AcceptedSplitsIntoIds(ids);
  }

  /** The character-level reading of the pattern: non-empty, only digits and commas,
      a digit first and last, and no two commas in a row. */
  predicate WellFormedIds(s: string) {
    && |s| > 0
    && IsDigit(s[0]) && IsDigit(s[|s| - 1])
    && (forall i :: 0 <= i < |s| ==> IsDigit(s[i]) || s[i] == ',')
    && (forall i :: 0 <= i < |s| - 1 ==> s[i] != ',' || s[i + 1] != ',')
  }

  predicate RunTail(s: string) {
    |s| == 0 ||
    (&& IsDigit(s[|s| - 1])
     && (forall i :: 0 <= i < |s| ==> IsDigit(s[i]) || s[i] == ',')
     && (forall i :: 0 <= i < |s| - 1 ==> s[i] != ',' || s[i + 1] != ','))
  }

  lemma {:induction false} InRunShape(s: string)
    ensures InRun(s) <==> RunTail(s)
    decreases |s|, 0
  {
    if |s| > 0 {
      var t := s[1..];
      assert forall i :: 0 <= i < |t| ==> t[i] == s[i + 1];
      if IsDigit(s[0]) {
        InRunShape(t);
        if |t| > 0 {
          assert s[|s| - 1] == t[|t| - 1];
        }
      } else if s[0] == ',' {
        MatchesShape(t);
        if |t| > 0 {
          assert s[|s| - 1] == t[|t| - 1];
        }
      }
    }
  }

  /** The pattern accepts exactly the well-formed strings. */
  lemma {:induction false} MatchesShape(s: string)
    ensures MatchesIds(s) <==> WellFormedIds(s)
    decreases |s|, 1
  {
    if |s| > 0 {
      var t := s[1..];
      assert forall i :: 0 <= i < |t| ==> t[i] == s[i + 1];
      InRunShape(t);
      if |t| > 0 {
        assert s[|s| - 1] == t[|t| - 1];
      }
    }
  }
}
