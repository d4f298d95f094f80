/** The differ as the program runs it: one token-level matcher, and one character-level
    matcher that is reset for every pair it probes. */
module Differ {
  import opened Wrappers
  import opened Seqs
  import opened EditScript
  import opened Interning
  import opened DifferSpec
  import M = Matching
  import D = Decomposition
  import S = SequenceMatcherClass

  method MapKeeps(values: seq<string>) returns (ops: seq<DiffOp>)
    ensures ops == KeepAll(values)
  {
    ops := [];
    for i := 0 to |values|
      invariant ops + KeepAll(values[i..]) == KeepAll(values)
    {
      assert values[i..][0] == values[i] && values[i..][1..] == values[i + 1..];
      ops := ops + [Keep(values[i])];
    }
  }

  method MapDeletes(values: seq<string>) returns (ops: seq<DiffOp>)
    ensures ops == Deletes(values)
  {
    ops := [];
    for i := 0 to |values|
      invariant ops + Deletes(values[i..]) == Deletes(values)
    {
      assert values[i..][0] == values[i] && values[i..][1..] == values[i + 1..];
      ops := ops + [Delete(values[i])];
    }
  }

  method MapInserts(values: seq<string>) returns (ops: seq<DiffOp>)
    ensures ops == Inserts(values)
  {
    ops := [];
    for i := 0 to |values|
      invariant ops + Inserts(values[i..]) == Inserts(values)
    {
      assert values[i..][0] == values[i] && values[i..][1..] == values[i + 1..];
      ops := ops + [Insert(values[i])];
    }
  }

  class Differ {
    const charCruncher: S.SequenceMatcher<char>

    ghost predicate Valid()
      reads this, charCruncher
    {
      charCruncher.Valid() && charCruncher.autojunk
    }

    constructor ()
      ensures Valid() && fresh(charCruncher)
    {
      charCruncher := new S.SequenceMatcher<char>(true);
    }

    /** Probes one pair with the cruncher holding b[j]. */
    method ProbePair(a: seq<string>, b: seq<string>, i: nat, j: nat, s: Best) returns (r: Best)
      requires Valid() && i < |a| && j < |b| && charCruncher.b == b[j]
      modifies charCruncher
      ensures Valid() && charCruncher.b == b[j] && r == Consider(a, b, i, j, s)
    {
      hide D.Ratio, D.QuickRatio, D.RealQuickRatio;
      if a[i] == b[j] {
        return if s.identical.None? then s.(identical := Some((i, j))) else s;
      }
      charCruncher.SetSeq1(a[i]);
      assert charCruncher.Pair() == M.Inputs(a[i], b[j], true);
      ThreeStages(a[i], b[j], s.ratio);
      var real1 := charCruncher.GetRealQuickRatio();
      if real1 > s.ratio {
        var quick := charCruncher.GetQuickRatio();
        if quick > s.ratio {
          var exact := charCruncher.GetRatio();
          if exact > s.ratio {
            var again := charCruncher.GetRatio();
            return Best(again, i, j, s.identical);
          }
        }
      }
      r := s;
    }

    /** All pairs, columns outside and rows inside. */
    method FindBest(a: seq<string>, alo: nat, ahi: nat, b: seq<string>, blo: nat, bhi: nat) returns (s: Best)
      requires Valid() && alo < ahi <= |a| && blo < bhi <= |b|
      modifies charCruncher
      ensures Valid() && s == Columns(a, b, alo, ahi, blo, bhi)
    {
      hide Consider;
      s := Best(START, 0, 0, None);
      for j := blo to bhi
        invariant Valid() && s == Columns(a, b, alo, ahi, blo, j)
      {
        charCruncher.SetSeq2(b[j]);
        ghost var before := s;
        for i := alo to ahi
          invariant Valid() && charCruncher.b == b[j] && s == Column(a, b, alo, i, j, before)
        {
          s := ProbePair(a, b, i, j, s);
        }
      }
    }

    /** Replaces a stretch: synchronise on the best pair and recurse on both sides. */
    method FancyReplace(a: seq<string>, alo: nat, ahi: nat, b: seq<string>, blo: nat, bhi: nat, out0: seq<DiffOp>)
        returns (out: seq<DiffOp>)
      requires Valid() && alo < ahi <= |a| && blo < bhi <= |b|
      modifies charCruncher
      ensures Valid() && out == out0 + Fancy(a, alo, ahi, b, blo, bhi)
      decreases ahi - alo + (bhi - blo), 0
    {
      hide Columns, DifferSpec.Helper, DifferSpec.PlainReplace;
      var s := FindBest(a, alo, ahi, b, blo, bhi);
      ColumnsBest(a, b, alo, ahi, blo, bhi);
      var synchI, synchJ, identical := s.i, s.j, false;
      if s.ratio < CUTOFF {
        if s.identical.None? {
          var plain := PlainReplace(a[alo..ahi], b[blo..bhi]);
          return out0 + plain;
        }
        synchI, synchJ, identical := s.identical.value.0, s.identical.value.1, true;
      }
      out := FancyHelper(a, alo, synchI, b, blo, synchJ, out0);
      if identical {
        out := out + [Keep(a[synchI])];
      } else {
        out := out + [Delete(a[synchI])];
        out := out + [Insert(b[synchJ])];
      }
      out := FancyHelper(a, synchI + 1, ahi, b, synchJ + 1, bhi, out);
      if identical {
        Reassociate(out0, DifferSpec.Helper(a, alo, synchI, b, blo, synchJ), [Keep(a[synchI])],
            DifferSpec.Helper(a, synchI + 1, ahi, b, synchJ + 1, bhi));
      } else {
        assert
          forall o: seq<DiffOp> :: o + [Delete(a[synchI])] + [Insert(b[synchJ])] == o
            + [Delete(a[synchI]), Insert(b[synchJ])];
        Reassociate(out0, DifferSpec.Helper(a, alo, synchI, b, blo, synchJ), [Delete(a[synchI]), Insert(b[synchJ])],
                    DifferSpec.Helper(a, synchI + 1, ahi, b, synchJ + 1, bhi));
      }
    }

    method FancyHelper(a: seq<string>, alo: nat, ahi: nat, b: seq<string>, blo: nat, bhi: nat, out0: seq<DiffOp>)
        returns (out: seq<DiffOp>)
      requires Valid() && alo <= ahi <= |a| && blo <= bhi <= |b|
      modifies charCruncher
      ensures Valid() && out == out0 + DifferSpec.Helper(a, alo, ahi, b, blo, bhi)
      decreases ahi - alo + (bhi - blo), 1
    {
      hide Fancy;
      out := out0;
      if alo < ahi {
        if blo < bhi {
          out := FancyReplace(a, alo, ahi, b, blo, bhi, out0);
        } else {
          var more := MapDeletes(a[alo..ahi]);
          out := out + more;
        }
      } else if blo < bhi {
        var more := MapInserts(b[blo..bhi]);
        out := out + more;
      }
    }

    /** The shorter side first. */
    static method PlainReplace(a: seq<string>, b: seq<string>) returns (ops: seq<DiffOp>)
      ensures ops == DifferSpec.PlainReplace(a, b)
    {
      var deletes := MapDeletes(a);
      var inserts := MapInserts(b);
      ops := if |b| < |a| then inserts + deletes else deletes + inserts;
    }
  }

  lemma Reassociate(o: seq<DiffOp>, x: seq<DiffOp>, mid: seq<DiffOp>, y: seq<DiffOp>)
    ensures o + x + mid + y == o + (x + mid + y)
  {
  }

  /** The transcript of two token lists: intern, match, and expand the replaced stretches. */
  method DifferCompare(prev: seq<string>, curr: seq<string>) returns (out: seq<DiffOp>)
    ensures out == Compare(prev, curr) && Spells(out, prev, curr)
  {
    hide D.Opcodes, Spells, Fancy, Distinct;
    var a, b, values := InternBoth(prev, curr);
    ghost var p := Interned(prev, curr);
    IdsUnique(values, prev, a, p.a);
    IdsUnique(values, curr, b, p.b);
    var sm := new S.SequenceMatcher<nat>(true);
    sm.SetSeqs(a, b);
    assert sm.Pair() == p;
    var codes := sm.GetOpcodes();
    CodesReadable(prev, curr);
    CompareSpells(prev, curr);
    out := Expand(prev, curr, codes);
  }

  method Expand(prev: seq<string>, curr: seq<string>, codes: seq<D.OpCode>) returns (out: seq<DiffOp>)
    requires forall c :: c in codes ==> Readable(prev, curr, c)
    ensures out == Segments(prev, curr, codes)
  {
    hide Fancy;
    var differ := new Differ();
    out := [];
    for n := 0 to |codes|
      invariant differ.Valid() && fresh(differ.charCruncher)
      invariant out == Segments(prev, curr, codes[..n])
    {
      var c := codes[n];
      assert c in codes && codes[..n + 1][..n] == codes[..n];
      match c.tag {
        case Equal =>
          var more := MapKeeps(prev[c.i1..c.i2]);
          out := out + more;
        case Delete =>
          var more := MapDeletes(prev[c.i1..c.i2]);
          out := out + more;
        case Insert =>
          var more := MapInserts(curr[c.j1..c.j2]);
          out := out + more;
        case Replace =>
          out := differ.FancyReplace(prev, c.i1, c.i2, curr, c.j1, c.j2, out);
      }
    }
    assert codes[..|codes|] == codes;
  }
}
