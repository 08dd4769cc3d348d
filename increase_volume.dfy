/** The one-shot volume raiser: read the output volume, add the amount, cap
    the sum at 100 and write it back. Unlike `set_volume` there is no lower
    bound, so a negative amount can send a negative value. */
module IncreaseVolume {
  import opened Levels
  import opened Volume

  /** `min(current + amount, 100)` */
  function Raised(current: int, amount: int): (r: int)
    ensures r <= MaxLevel
    ensures current + amount <= MaxLevel ==> r == current + amount
    ensures current + amount > MaxLevel ==> r == MaxLevel
  {
    if current + amount < MaxLevel then current + amount else MaxLevel
  }

  /** A non-negative amount from a volume in range lands in range, and on the
      same value the clamped adjustment of `adjust_volume` would write. */
  lemma RaisedAgreesWithAdjust(current: int, amount: int)
    requires InRange(current) && amount >= 0
    ensures InRange(Raised(current, amount))
    ensures Raised(current, amount) == Clamp(current + amount)
  {
  }

  /** A negative amount larger than the current volume is sent unclamped. */
  lemma NegativeAmountGoesBelowZero()
    ensures Raised(5, -10) == -5
  {
  }

  /** `increase_volume(amount=10)`: one read, then one write of the raised
      value. When the read's output is no number, `int` raises a
      `ValueError` before anything is sent. `os.system` never raises: its
      exit `status` is ignored, and only a status of 0 changes the volume. */
  method Increase(v: SystemVolume, readable: bool, status: int, amount: int := 10)
    returns (raised: bool)
    modifies v
    ensures raised <==> !readable
    ensures v.level == (if readable && status == 0 then Raised(old(v.level), amount) else old(v.level))
    ensures v.writes == old(v.writes) + (if readable then [Raised(old(v.level), amount)] else [])
    ensures old(v.Valid()) && amount >= 0 ==> v.Valid()
  {
    var currentVol := v.GetCurrentVolume(readable);
    if currentVol.None? {
      return true;
    }
    var newVol := Raised(currentVol.value, amount);
    v.writes := v.writes + [newVol];
    if status == 0 {
      v.level := newVol;
    }
    raised := false;
  }
}
