/** components/auth/otp-input.tsx: the row of one-character OTP boxes.  The `otp` state is a
    list of `length` slot strings, each "" or one character; every handler replaces it with
    an updated copy and reports the joined value to `onChange`, and to `onComplete` when all
    slots are filled.  Focus moves and rendering are not part of this model. */
module OtpInput {
  import opened JsText

  /** A slot: "" or a single character. */
  predicate IsSlot(s: string) { |s| <= 1 }
  predicate AllSlots(slots: seq<string>) { forall i | 0 <= i < |slots| :: IsSlot(slots[i]) }

  /** `/^\d?$/.test(char)`: the keys `handleChange` lets into a slot. */
  predicate IsSlotInput(ch: string) { ch == "" || (|ch| == 1 && IsDigit(ch[0])) }

  /** The slots the value-sync effect builds from `value`: its first `length` characters,
      then "" up to `length`. */
  function SyncedSlots(value: string, length: nat): (r: seq<string>)
    ensures |r| == length && AllSlots(r)
    ensures Join(r) == Take(value, length)
    ensures forall i | 0 <= i < length :: r[i] == (if i < |value| then [value[i]] else "")
  {
    var chars := Chars(Take(value, length));
    var pad := Blanks(length - |chars|);
    JoinAppend(chars, pad);
    JoinChars(Take(value, length));
    JoinBlanks(length - |chars|);
    chars + pad
  }

  /** The filled slots, in order. */
  function Filled(slots: seq<string>): (r: seq<string>)
    ensures |r| <= |slots|
  {
    if slots == [] then [] else (if slots[0] == "" then [] else [slots[0]]) + Filled(slots[1..])
  }

  /** The joined value has one character per filled slot, so it is `length` long exactly when
      every slot is filled. */
  lemma {:induction false} JoinOfSlots(slots: seq<string>)
    requires AllSlots(slots)
    ensures |Join(slots)| == |Filled(slots)| <= |slots|
    ensures |Join(slots)| == |slots| <==> forall i | 0 <= i < |slots| :: slots[i] != ""
  {
    if slots != [] {
      JoinOfSlots(slots[1..]);
      assert Join(slots) == slots[0] + Join(slots[1..]);
      if |Join(slots)| == |slots| {
        forall i | 0 <= i < |slots| ensures slots[i] != "" {
          if i > 0 { assert slots[i] == slots[1..][i - 1]; }
        }
      }
      if forall i | 0 <= i < |slots| :: slots[i] != "" {
        forall i | 0 <= i < |slots[1..]| ensures slots[1..][i] != "" {
          assert slots[1..][i] == slots[i + 1];
        }
      }
    }
  }

  /** Split back into characters, the joined value is the filled slots in order. */
  lemma {:induction false} CharsOfJoin(slots: seq<string>)
    requires AllSlots(slots)
    ensures Chars(Join(slots)) == Filled(slots)
  {
    if slots != [] {
      CharsOfJoin(slots[1..]);
      var rest := Join(slots[1..]);
      assert Join(slots) == slots[0] + rest;
      if slots[0] != "" {
        assert slots[0] == [slots[0][0]];
        assert Chars(slots[0] + rest) == [slots[0]] + Chars(rest);
      }
    }
  }

  /** Feeding the joined value back through the sync effect moves the filled slots to the
      front, in their order, with "" after them; the joined value is unchanged by it. */
  lemma SyncAfterJoin(slots: seq<string>)
    requires AllSlots(slots)
    ensures SyncedSlots(Join(slots), |slots|) == Filled(slots) + Blanks(|slots| - |Filled(slots)|)
    ensures Join(SyncedSlots(Join(slots), |slots|)) == Join(slots)
  {
    JoinOfSlots(slots);
    CharsOfJoin(slots);
    var v := Join(slots);
    assert Take(v, |slots|) == v;
    var r := SyncedSlots(v, |slots|);
    var f := Filled(slots) + Blanks(|slots| - |Filled(slots)|);
    forall i | 0 <= i < |slots| ensures r[i] == f[i] {
      if i < |v| { assert Chars(v)[i] == [v[i]]; }
    }
  }

  /** The paste path's `while (newOtp.length < length) newOtp.push("")`. */
  method PadWithEmptySlots(slots: seq<string>, length: nat) returns (r: seq<string>)
    requires |slots| <= length
    ensures r == slots + Blanks(length - |slots|)
  {
    r := slots;
    while |r| < length
      invariant |slots| <= |r| <= length
      invariant r == slots + Blanks(|r| - |slots|)
    {
      r := r + [""];
    }
  }

  class OtpBoxes {
    /** `length`, 6 by default */
    const length: nat
    /** The `otp` state. */
    var otp: seq<string>

    ghost predicate Valid()
      reads this
    {
      |otp| == length && AllSlots(otp)
    }

    /** `useState(Array(length).fill(""))` */
    constructor (length: nat := 6)
      ensures Valid() && this.length == length && otp == Blanks(length)
    {
      this.length := length;
      otp := Blanks(length);
    }

    /** The effect that runs when `value` changes. */
    method SyncValue(value: string)
      requires Valid()
      modifies this
      ensures Valid() && otp == SyncedSlots(value, length)
    {
      otp := SyncedSlots(value, length);
    }

    /** `handleChange(index, char)`: returns what `onChange` and `onComplete` receive, `None`
        when a callback is not called. */
    method HandleChange(index: nat, ch: string) returns (changed: Option<string>, completed: Option<string>)
      requires Valid() && index < length
      modifies this
      ensures Valid()
      ensures !IsSlotInput(ch) ==> otp == old(otp) && changed == None && completed == None
      ensures IsSlotInput(ch) ==> otp == old(otp)[index := ch] && changed == Some(Join(otp))
      ensures completed.Some? <==> IsSlotInput(ch) && forall i | 0 <= i < length :: otp[i] != ""
      ensures completed.Some? ==> completed == changed
    {
      changed, completed := None, None;
      if !IsSlotInput(ch) {
        return;
      }
      var newOtp := otp[index := ch];
      otp := newOtp;
      var otpValue := Join(newOtp);
      JoinOfSlots(newOtp);
      changed := Some(otpValue);
      if |otpValue| == length {
        completed := Some(otpValue);
      }
    }

    /** `handleKeyDown` with Backspace: clear this slot, or the one before when this one is
        already empty.  Returns what `onChange` receives. */
    method HandleBackspace(index: nat) returns (changed: string)
      requires Valid() && index < length
      modifies this
      ensures Valid()
      ensures old(otp)[index] != "" ==> otp == old(otp)[index := ""]
      ensures old(otp)[index] == "" && index > 0 ==> otp == old(otp)[index - 1 := ""]
      ensures old(otp)[index] == "" && index == 0 ==> otp == old(otp)
      ensures changed == Join(otp)
    {
      var newOtp := otp;
      if newOtp[index] != "" {
        newOtp := newOtp[index := ""];
      } else if index > 0 {
        newOtp := newOtp[index - 1 := ""];
      }
      otp := newOtp;
      changed := Join(newOtp);
    }

    /** `handlePaste`: the digits of the pasted text, at most `length` of them, fill the
        leading slots.  A paste without digits changes nothing. */
    method HandlePaste(paste: string) returns (changed: Option<string>, completed: Option<string>)
      requires Valid()
      modifies this
      ensures Valid()
      ensures Take(DigitsOf(paste), length) == [] ==> otp == old(otp) && changed == None && completed == None
      ensures Take(DigitsOf(paste), length) != [] ==>
        && otp == SyncedSlots(DigitsOf(paste), length)
        && changed == Some(Take(DigitsOf(paste), length))
      ensures completed.Some? <==> length > 0 && |DigitsOf(paste)| >= length
      ensures completed.Some? ==> completed == changed
    {
      changed, completed := None, None;
      var digits := Take(DigitsOf(paste), length);
      if |digits| > 0 {
        var newOtp := Chars(Take(digits, length));
        newOtp := PadWithEmptySlots(newOtp, length);
        assert newOtp == SyncedSlots(DigitsOf(paste), length);
        otp := newOtp;
        changed := Some(Join(newOtp));
        if |digits| == length {
          completed := Some(digits);
        }
      }
    }
  }

  /** After a paste every slot holds a digit or is empty: the pasted value is digits only. */
  lemma PastedSlotsAreDigits(paste: string, length: nat)
    ensures var r := SyncedSlots(DigitsOf(paste), length);
      forall i | 0 <= i < length :: r[i] == "" || (|r[i]| == 1 && IsDigit(r[i][0]))
  {
  }
}
