/** The type names of a GVAS save, told apart, and the kind each one selects. The
    meaning of the kinds, in bytes, is stated in GvasMeaning. */
module GvasNames {
  import opened Bits
  import opened GvasFormat

  // ---- Telling names apart ----

  /** Enough of a name to tell those below apart: its length and three letters. */
  function Tell(length: nat, first: nat, second: nat, fifth: nat): nat {
    ((length * 0x80 + first) * 0x80 + second) * 0x80 + fifth
  }

  function TellOf(name: seq<byte>): nat {
    if name == [] then 0
    else if |name| < 5 then Tell(|name|, name[0], 0, 0)
    else Tell(|name|, name[0], name[1], name[4])
  }

  lemma TellLit(s: string, first: nat, second: nat, fifth: nat)
    requires s != [] && first < 0x80 && s[0] as nat == first
    requires if |s| < 5 then second == fifth == 0 else second < 0x80 && fifth < 0x80 && s[1] as nat == second && s[4] as nat == fifth
    ensures TellOf(Lit(s)) == Tell(|s|, first, second, fifth)
  {
  }

  lemma IntNames()
    ensures TellOf(Lit("IntProperty")) == 0x1727772
    ensures TellOf(Lit("UInt32Property")) == 0x1d564b3
    ensures TellOf(Lit("Int64Property")) == 0x1b27734
  {
    hide Lit, TellOf;
    TellLit("IntProperty", 73, 110, 114);
    TellLit("UInt32Property", 85, 73, 51);
    TellLit("Int64Property", 73, 110, 52);
  }

  lemma FloatNames()
    ensures TellOf(Lit("UInt64Property")) == 0x1d564b6
    ensures TellOf(Lit("FloatProperty")) == 0x1b1b674
    ensures TellOf(Lit("DoubleProperty")) == 0x1d137ec
  {
    hide Lit, TellOf;
    TellLit("UInt64Property", 85, 73, 54);
    TellLit("FloatProperty", 70, 108, 116);
    TellLit("DoubleProperty", 68, 111, 108);
  }

  lemma StringNames()
    ensures TellOf(Lit("NameProperty")) == 0x193b0d0
    ensures TellOf(Lit("StrProperty")) == 0x174fa72
    ensures TellOf(Lit("ObjectProperty")) == 0x1d3f163
  {
    hide Lit, TellOf;
    TellLit("NameProperty", 78, 97, 80);
    TellLit("StrProperty", 83, 116, 114);
    TellLit("ObjectProperty", 79, 98, 99);
  }

  lemma ByteNames()
    ensures TellOf(Lit("EnumProperty")) == 0x1917750
    ensures TellOf(Lit("ByteProperty")) == 0x190bcd0
    ensures TellOf(Lit("SoftObjectProperty")) == 0x254f7cf
  {
    hide Lit, TellOf;
    TellLit("EnumProperty", 69, 110, 80);
    TellLit("ByteProperty", 66, 121, 80);
    TellLit("SoftObjectProperty", 83, 111, 79);
  }

  lemma FlagNames()
    ensures TellOf(Lit("BoolProperty")) == 0x190b7d0
    ensures TellOf(Lit("TextProperty")) == 0x19532d0
    ensures TellOf(Lit("StructProperty")) == 0x1d4fa63
  {
    hide Lit, TellOf;
    TellLit("BoolProperty", 66, 111, 80);
    TellLit("TextProperty", 84, 101, 80);
    TellLit("StructProperty", 83, 116, 99);
  }

  lemma ContainerNames()
    ensures TellOf(Lit("ArrayProperty")) == 0x1b07979
    ensures TellOf(Lit("MapProperty")) == 0x17370f2
    ensures TellOf(Lit("SetProperty")) == 0x174f2f2
  {
    hide Lit, TellOf;
    TellLit("ArrayProperty", 65, 114, 121);
    TellLit("MapProperty", 77, 97, 114);
    TellLit("SetProperty", 83, 101, 114);
  }

  lemma NumberKinds()
    ensures PropertyKindOf(Lit("IntProperty")) == ScalarP(IntS)
    ensures PropertyKindOf(Lit("UInt32Property")) == ScalarP(UInt32S)
    ensures PropertyKindOf(Lit("Int64Property")) == ScalarP(Int64S)
    ensures PropertyKindOf(Lit("UInt64Property")) == ScalarP(UInt64S)
    ensures PropertyKindOf(Lit("FloatProperty")) == ScalarP(FloatS)
    ensures PropertyKindOf(Lit("DoubleProperty")) == ScalarP(DoubleS)
  {
    hide Lit, TellOf;
    IntNames();
    FloatNames();
    StringNames();
    ByteNames();
    FlagNames();
    ContainerNames();
  }

  lemma StringKinds()
    ensures PropertyKindOf(Lit("NameProperty")) == ScalarP(NameS)
    ensures PropertyKindOf(Lit("StrProperty")) == ScalarP(StrS)
    ensures PropertyKindOf(Lit("ObjectProperty")) == ScalarP(ObjectS)
    ensures PropertyKindOf(Lit("EnumProperty")) == ScalarP(EnumS)
    ensures PropertyKindOf(Lit("SoftObjectProperty")) == ScalarP(SoftObjectS)
  {
    hide Lit, TellOf;
    IntNames();
    FloatNames();
    StringNames();
    ByteNames();
    FlagNames();
    ContainerNames();
  }

  lemma FlagKinds()
    ensures PropertyKindOf(Lit("BoolProperty")) == BoolP
    ensures PropertyKindOf(Lit("ByteProperty")) == ByteP
    ensures PropertyKindOf(Lit("TextProperty")) == TextP
  {
    hide Lit, TellOf;
    IntNames();
    FloatNames();
    StringNames();
    ByteNames();
    FlagNames();
    ContainerNames();
  }

  lemma ContainerKinds()
    ensures PropertyKindOf(Lit("StructProperty")) == StructP
    ensures PropertyKindOf(Lit("ArrayProperty")) == ArrayP
    ensures PropertyKindOf(Lit("MapProperty")) == MapP
    ensures PropertyKindOf(Lit("SetProperty")) == SetP
  {
    hide Lit, TellOf;
    IntNames();
    FloatNames();
    StringNames();
    ByteNames();
    FlagNames();
    ContainerNames();
  }

  lemma PlaceNames()
    ensures TellOf(Lit("Guid")) == 0x91c000
    ensures TellOf(Lit("DateTime")) == 0x11130d4
    ensures TellOf(Lit("Vector")) == 0xd5b2ef
  {
    hide Lit, TellOf;
    TellLit("Guid", 71, 0, 0);
    TellLit("DateTime", 68, 97, 84);
    TellLit("Vector", 86, 101, 111);
  }

  lemma TurnNames()
    ensures TellOf(Lit("Quat")) == 0x944000
    ensures TellOf(Lit("Rotator")) == 0xf4b7f4
    ensures TellOf(Lit("LinearColor")) == 0x17334e1
  {
    hide Lit, TellOf;
    TellLit("Quat", 81, 0, 0);
    TellLit("Rotator", 82, 111, 116);
    TellLit("LinearColor", 76, 105, 97);
  }

  lemma PointNames()
    ensures TellOf(Lit("GameplayTagContainer")) == 0x291f0f0
    ensures TellOf(Lit("Vector2D")) == 0x115b2ef
    ensures TellOf(Lit("IntPoint")) == 0x112776f
  {
    hide Lit, TellOf;
    TellLit("GameplayTagContainer", 71, 97, 112);
    TellLit("Vector2D", 86, 101, 111);
    TellLit("IntPoint", 73, 110, 111);
  }

  lemma StructKinds()
    ensures StructKindOf(Lit("Guid")) == FixedStruct(GuidS)
    ensures StructKindOf(Lit("DateTime")) == FixedStruct(DateTimeS)
    ensures StructKindOf(Lit("Vector")) == FixedStruct(VectorS)
    ensures StructKindOf(Lit("Quat")) == FixedStruct(QuatS)
    ensures StructKindOf(Lit("Rotator")) == FixedStruct(RotatorS)
    ensures StructKindOf(Lit("LinearColor")) == FixedStruct(LinearColorS)
    ensures StructKindOf(Lit("GameplayTagContainer")) == TagContainer
    ensures StructKindOf(Lit("Vector2D")) == FixedStruct(Vector2DS)
    ensures StructKindOf(Lit("IntPoint")) == FixedStruct(IntPointS)
  {
    hide Lit, TellOf;
    PlaceNames();
    TurnNames();
    PointNames();
  }
}
