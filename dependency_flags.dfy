/**
 * DependencyFlags.java: the per-dependency display flags. Flag n (counted from 1) is the
 * bit 2^(n-1) of a Java long; the client interprets only DISPLAY_ON_CLIENT.
 */
module DependencyFlags {

  datatype DependencyFlag = DisplayOnClient | DisplayOnFrontend

  /** The number each constant is declared with */
  function Ordinal(f: DependencyFlag): nat {
    match f
    case DisplayOnClient => 1
    case DisplayOnFrontend => 2
  }

  /** `Math.pow(2, n)` on small n, exactly */
  function Pow2(n: nat): (r: nat)
    ensures r >= 1
  {
    if n == 0 then 1 else 2 * Pow2(n - 1)
  }

  /** `getFlagBit()`: `(long) Math.pow(2, ordinal - 1)` */
  function FlagBit(f: DependencyFlag): bv64 {
    Pow2(Ordinal(f) - 1) as bv64
  }

  /** `in(flags)`: every bit of this flag is set in flags */
  predicate In(f: DependencyFlag, flags: bv64) {
    flags & FlagBit(f) == FlagBit(f)
  }

  /** DISPLAY_ON_CLIENT is bit 1 and DISPLAY_ON_FRONTEND is bit 2, so the two bits differ */
  lemma FlagBits()
    ensures FlagBit(DisplayOnClient) == 1 && FlagBit(DisplayOnFrontend) == 2
  {
    assert Pow2(1) == 2 * Pow2(0);
  }

  /** Each flag's bit is 1 shifted left by one less than its number */
  lemma FlagBitIsShift(f: DependencyFlag)
    ensures FlagBit(f) == 1 << (Ordinal(f) - 1)
  {
    FlagBits();
  }

  /** A flag is in a mask exactly when the mask's bit number Ordinal(f) - 1 is set */
  lemma InIsBitTest(f: DependencyFlag, flags: bv64)
    ensures In(f, flags) <==> (flags >> (Ordinal(f) - 1)) & 1 == 1
  {
    FlagBits();
  }

  /** No flag is in the empty mask; setting a flag's bit puts it in; clearing it takes it out */
  lemma InSetAndClear(f: DependencyFlag, flags: bv64)
    ensures !In(f, 0)
    ensures In(f, flags | FlagBit(f))
    ensures !In(f, flags & !FlagBit(f))
  {
    FlagBits();
  }

  /** Setting the frontend bit leaves the client's answer as it was */
  lemma SetFrontendKeepsClient(flags: bv64)
    ensures In(DisplayOnClient, flags | FlagBit(DisplayOnFrontend)) == In(DisplayOnClient, flags)
  {
    FlagBits();
    assert (flags | 2) & 1 == flags & 1;
  }

  /** Clearing the frontend bit leaves the client's answer as it was */
  lemma ClearFrontendKeepsClient(flags: bv64)
    ensures In(DisplayOnClient, flags & !FlagBit(DisplayOnFrontend)) == In(DisplayOnClient, flags)
  {
    FlagBits();
    assert (flags & !2) & 1 == flags & 1;
  }

  /** The client's answer does not depend on the frontend bit, and the mask 3 holds both flags */
  lemma ClientIgnoresFrontend(flags: bv64)
    ensures In(DisplayOnClient, flags | FlagBit(DisplayOnFrontend)) == In(DisplayOnClient, flags)
    ensures In(DisplayOnClient, flags & !FlagBit(DisplayOnFrontend)) == In(DisplayOnClient, flags)
    ensures In(DisplayOnClient, 3) && In(DisplayOnFrontend, 3)
  {
    SetFrontendKeepsClient(flags);
    ClearFrontendKeepsClient(flags);
    FlagBits();
  }
}
