/** The format negotiation of sec_export.c: the mask on the tape against the mask of the device. */
module TapeFormat {

  /** A tape_format, as the set of the positions of its bits: which attributes are on the tape, and which of
      them are not to be set on import. */
  type Format = set<nat>

  const TYPE_FLAGS: nat := 0
  const PRIVS: nat := 1
  const SENS_LABEL: nat := 2
  const INFO_LABEL: nat := 3
  const ACL: nat := 4
  const NCAV: nat := 5
  const PACL: nat := 6
  const PDACL: nat := 7
  const MAX_HEADER_BIT: nat := 7
  const DONT_SET_TYPE_FLAGS: nat := 8
  const DONT_SET_PRIVS: nat := 9
  const DONT_SET_ACL: nat := 10

  /** The labels, in which tape and device must agree. */
  predicate IsLabel(b: nat) {
    b == SENS_LABEL || b == INFO_LABEL || b == NCAV
  }

  /** The bit that marks attribute `b` as not to be set; all three kinds of ACL share one. */
  function DontSet(b: nat): nat
    requires b <= MAX_HEADER_BIT && !IsLabel(b)
  {
    if b == TYPE_FLAGS then DONT_SET_TYPE_FLAGS else if b == PRIVS then DONT_SET_PRIVS else DONT_SET_ACL
  }

  /** Some attribute that the bit `d` marks is on the tape, is not on the device, and stands in front of `x`. */
  ghost predicate OnlyOnTape(ml: Format, device: Format, d: nat, x: nat) {
    exists b: nat :: b in ml && b < x && b <= MAX_HEADER_BIT && !IsLabel(b) && b !in device && DontSet(b) == d
  }

  /** The bits in front of `x` are settled: those of the header are the tape's, labels agreed, and an
      attribute is not to be set if that was so before or if it is on the tape only. */
  ghost predicate Settled(ml: Format, device: Format, f: Format, x: nat) {
    && (forall b: nat | b <= MAX_HEADER_BIT :: b in f <==> (if b < x then b in ml else b in device))
    && (forall b: nat | b < x && IsLabel(b) :: b in ml <==> b in device)
    && (forall d: nat | d > MAX_HEADER_BIT :: d in f <==> d in device || OnlyOnTape(ml, device, d, x))
  }

  lemma {:induction false} OneMoreOnTape(ml: Format, device: Format, d: nat, x: nat)
    requires x <= MAX_HEADER_BIT
    ensures OnlyOnTape(ml, device, d, x + 1)
            <==> OnlyOnTape(ml, device, d, x) || (x in ml && !IsLabel(x) && x !in device && DontSet(x) == d)
  {
  }

  /** One bit in which tape and device differ. */
  method SettleBit(ml: Format, device: Format, f: Format, x: nat) returns (ok: bool, g: Format)
    requires x <= MAX_HEADER_BIT && Settled(ml, device, f, x)
    ensures ok <==> (IsLabel(x) ==> (x in ml <==> x in device))
    ensures ok ==> Settled(ml, device, g, x + 1)
  {
    ok, g := true, f;
    forall d ensures OnlyOnTape(ml, device, d, x + 1) <==>
                     OnlyOnTape(ml, device, d, x) || (x in ml && !IsLabel(x) && x !in device && DontSet(x) == d)
    {
      OneMoreOnTape(ml, device, d, x);
    }
    if (x in ml) == (x in device) {
    } else if x == TYPE_FLAGS {
      if x in ml {
        g := g + {TYPE_FLAGS};
        g := g + {DONT_SET_TYPE_FLAGS};
      } else {
        g := g - {TYPE_FLAGS};
      }
    } else if x == PRIVS {
      if x in ml {
        g := g + {PRIVS};
        g := g + {DONT_SET_PRIVS};
      } else {
        g := g - {PRIVS};
      }
    } else if x == ACL {
      if x in ml {
        g := g + {ACL};
        g := g + {DONT_SET_ACL};
      } else {
        g := g - {ACL};
      }
    } else if x == PACL {
      if x in ml {
        g := g + {PACL};
        g := g + {DONT_SET_ACL};
      } else {
        g := g - {PACL};
      }
    } else if x == PDACL {
      if x in ml {
        g := g + {PDACL};
        g := g + {DONT_SET_ACL};
      } else {
        g := g - {PDACL};
      }
    } else {
      ok := false;
    }
  }

  /** What marks the attributes as not to be set: each its own, and one that the three kinds of ACL share. */
  ghost predicate MarksSet(ml: Format, device: Format, f: Format) {
    && (DONT_SET_TYPE_FLAGS in f
        <==> DONT_SET_TYPE_FLAGS in device || (TYPE_FLAGS in ml && TYPE_FLAGS !in device))
    && (DONT_SET_PRIVS in f <==> DONT_SET_PRIVS in device || (PRIVS in ml && PRIVS !in device))
    && (DONT_SET_ACL in f
        <==> || DONT_SET_ACL in device || (ACL in ml && ACL !in device) || (PACL in ml && PACL !in device)
             || (PDACL in ml && PDACL !in device))
    && forall d | d > DONT_SET_ACL :: d in f <==> d in device
  }

  lemma {:induction false} SettledMarks(ml: Format, device: Format, f: Format)
    requires Settled(ml, device, f, MAX_HEADER_BIT + 1)
    ensures MarksSet(ml, device, f)
  {
    var x := MAX_HEADER_BIT + 1;
    forall d: nat | d > DONT_SET_ACL ensures !OnlyOnTape(ml, device, d, x) {
    }
    assert TYPE_FLAGS in ml && TYPE_FLAGS !in device ==> OnlyOnTape(ml, device, DONT_SET_TYPE_FLAGS, x);
    assert PRIVS in ml && PRIVS !in device ==> OnlyOnTape(ml, device, DONT_SET_PRIVS, x);
    assert (ACL in ml && ACL !in device) || (PACL in ml && PACL !in device) || (PDACL in ml && PDACL !in device)
           ==> OnlyOnTape(ml, device, DONT_SET_ACL, x);
  }

  /** The part of `ie_check_device` that compares the formats.  It succeeds exactly if tape and device agree
      on the three labels; the header bits of the result are then the tape's. */
  method Negotiate(ml: Format, device: Format) returns (ok: bool, f: Format)
    ensures ok <==> && (SENS_LABEL in ml <==> SENS_LABEL in device) && (INFO_LABEL in ml <==> INFO_LABEL in device)
                    && (NCAV in ml <==> NCAV in device)
    ensures ok ==> forall b: nat | b <= MAX_HEADER_BIT :: b in f <==> b in ml
    ensures ok ==> MarksSet(ml, device, f)
  {
    ok, f := true, device;
    if ml != device {
      var x: nat := 0;
      while x <= MAX_HEADER_BIT
        invariant x <= MAX_HEADER_BIT + 1 && Settled(ml, device, f, x)
      {
        ok, f := SettleBit(ml, device, f, x);
        if !ok {
          return;
        }
        x := x + 1;
      }
      SettledMarks(ml, device, f);
    }
  }
}
