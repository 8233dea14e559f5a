/**
 A seed whose program is longer than any program made without drawing a zero.
 */
module LongSeed {
  import opened Rand
  import opened ProgramTree
  import opened TreeBuilder
  import opened Seeds

  const SEED: State := 470473056

  const KINDS: seq<Kind> := [
    Sequence, Sequence, Sequence, Loop, Sequence, Sequence, Operation, Sequence, Sequence, Sequence,
    Sequence, Loop, Sequence, Loop, Sequence, Loop, Loop, Loop, Operation, Operation,
    Operation, Operation, Operation, Operation, Operation, Operation, Operation, Operation, Operation
  ]

  const DRAWS: seq<nat> := [
    16153, 10706, 5682, 27956, 7875, 9996, 28733, 9662, 9828, 1274,
    4812, 7842, 1094, 12563, 0, 9655, 2057, 1962, 12408, 19679,
    16483, 17661, 23918, 32755, 14488, 31482, 20625, 3440, 4536
  ]

  /** The states the generator goes through. */
  const STATES: seq<State> := [
    470473056, 519174189657751065, 16839819813375377118, 462292574111160511,
    660975527153380236, 6132893708540142293, 16215144533402069738, 9417310208951960027,
    426139749434946680, 5164286718364637009, 3833225225482931126, 14571753399080755383,
    15161538140862308388, 12550496206851544973, 4483531573891902786, 16820119259395952979,
    14083544874883701392, 1465634596787429257, 13858344122549197710, 8204719268092768175,
    3906338186533507004, 826464608488500037, 7650290963922625178, 16528296778176321483,
    5456109891996609448, 1784983169307031233, 5167631975321357926, 1906122380842968487,
    10801919833590995540, 13155504855377837565
  ]

  lemma FirstTable(k: nat)
    requires k < 10
    ensures Line(STATES, DRAWS, k)
  {
    match k {
      case 0 => Row(470473056, 0, 519174189657751065, 1844, 62553, 16153, 65049);
      case 1 => Row(519174189657751065, 31057872, 16839819813375377118, 59827, 7628, 10706, 65246);
      case 2 => Row(16839819813375377118, 1007386334, 462292574111160511, 1642, 51531, 5682, 22719);
      case 3 => Row(462292574111160511, 27655119, 660975527153380236, 2348, 33658, 27956, 11148);
      case 4 => Row(660975527153380236, 39540667, 6132893708540142293, 21788, 54443, 7875, 25301);
      case 5 => Row(6132893708540142293, 366880012, 16215144533402069738, 57607, 100373, 9996, 10986);
      case 6 => Row(16215144533402069738, 970017208, 9417310208951960027, 33457, 890, 28733, 49627);
      case 7 => Row(9417310208951960027, 563359330, 426139749434946680, 1513, 124848, 9662, 29816);
      case 8 => Row(426139749434946680, 25492396, 5164286718364637009, 18347, 30417, 9828, 22353);
      case _ => Row(5164286718364637009, 308936314, 3833225225482931126, 13618, 46097, 1274, 2998);
    }
  }

  lemma SecondTable(k: nat)
    requires 10 <= k < 20
    ensures Line(STATES, DRAWS, k)
  {
    match k {
      case 10 => Row(3833225225482931126, 229309977, 14571753399080755383, 51769, 35078, 4812, 41143);
      case 11 => Row(14571753399080755383, 871706787, 15161538140862308388, 53864, 79160, 7842, 24612);
      case 12 => Row(15161538140862308388, 906988702, 12550496206851544973, 44588, 41884, 1094, 6029);
      case 13 => Row(12550496206851544973, 750791784, 4483531573891902786, 15928, 92268, 12563, 11586);
      case 14 => Row(4483531573891902786, 268212396, 16820119259395952979, 59757, 8883, 0, 37203);
      case 15 => Row(16820119259395952979, 1006207813, 14083544874883701392, 50034, 105188, 9655, 23184);
      case 16 => Row(14083544874883701392, 842501333, 1465634596787429257, 5206, 128461, 2057, 40841);
      case 17 => Row(1465634596787429257, 87676725, 13858344122549197710, 49234, 95516, 1962, 56206);
      case 18 => Row(13858344122549197710, 829029445, 8204719268092768175, 29149, 2408, 12408, 61359);
      case _ => Row(8204719268092768175, 490820101, 3906338186533507004, 13878, 13252, 19679, 36796);
    }
  }

  lemma ThirdTable(k: nat)
    requires 20 <= k < 29
    ensures Line(STATES, DRAWS, k)
  {
    match k {
      case 20 => Row(3906338186533507004, 233683718, 826464608488500037, 2936, 25181, 16483, 43845);
      case 21 => Row(826464608488500037, 49440502, 7650290963922625178, 27179, 38450, 17661, 8858);
      case 22 => Row(7650290963922625178, 457653267, 16528296778176321483, 58720, 40114, 23918, 55243);
      case 23 => Row(16528296778176321483, 988750502, 5456109891996609448, 19383, 130579, 32755, 60328);
      case 24 => Row(5456109891996609448, 326393667, 1784983169307031233, 6341, 70008, 14488, 46785);
      case 25 => Row(1784983169307031233, 106780694, 5167631975321357926, 18359, 15309, 31482, 52838);
      case 26 => Row(5167631975321357926, 309136433, 1906122380842968487, 6771, 118889, 20625, 9639);
      case 27 => Row(1906122380842968487, 114027445, 10801919833590995540, 38376, 16823, 3440, 6740);
      case _ => Row(10801919833590995540, 646189005, 13155504855377837565, 46737, 97262, 4536, 65021);
    }
  }

  lemma Table(k: nat)
    requires k < 29
    ensures Line(STATES, DRAWS, k)
  {
    if k < 10 {
      FirstTable(k);
    } else if k < 20 {
      SecondTable(k);
    } else {
      ThirdTable(k);
    }
  }

  lemma FirstChoices(kinds: seq<Kind>, draws: seq<nat>)
    requires |kinds| == |draws| == 29 && Open(kinds[..0]) == 1 && TotalCost(kinds[..0]) == 0
    requires kinds[0] == Sequence && kinds[1] == Sequence && kinds[2] == Sequence
    requires draws[0] == 16153 && draws[1] == 10706 && draws[2] == 5682
    ensures forall i :: 0 <= i < 3 ==> ChosenAt(kinds, draws, i)
    ensures Open(kinds[..3]) == 4 && TotalCost(kinds[..3]) == 0
  {
    ChoiceAt(kinds, draws, 0, 16153, Sequence, 1, 0);
    ChoiceAt(kinds, draws, 1, 10706, Sequence, 2, 0);
    ChoiceAt(kinds, draws, 2, 5682, Sequence, 3, 0);
  }

  lemma SecondChoices(kinds: seq<Kind>, draws: seq<nat>)
    requires |kinds| == |draws| == 29 && Open(kinds[..3]) == 4 && TotalCost(kinds[..3]) == 0
    requires kinds[3] == Loop && kinds[4] == Sequence && kinds[5] == Sequence
    requires draws[3] == 27956 && draws[4] == 7875 && draws[5] == 9996
    ensures forall i :: 3 <= i < 6 ==> ChosenAt(kinds, draws, i)
    ensures Open(kinds[..6]) == 6 && TotalCost(kinds[..6]) == 2
  {
    ChoiceAt(kinds, draws, 3, 27956, Loop, 4, 0);
    ChoiceAt(kinds, draws, 4, 7875, Sequence, 4, 2);
    ChoiceAt(kinds, draws, 5, 9996, Sequence, 5, 2);
  }

  lemma ThirdChoices(kinds: seq<Kind>, draws: seq<nat>)
    requires |kinds| == |draws| == 29 && Open(kinds[..6]) == 6 && TotalCost(kinds[..6]) == 2
    requires kinds[6] == Operation && kinds[7] == Sequence && kinds[8] == Sequence
    requires draws[6] == 28733 && draws[7] == 9662 && draws[8] == 9828
    ensures forall i :: 6 <= i < 9 ==> ChosenAt(kinds, draws, i)
    ensures Open(kinds[..9]) == 7 && TotalCost(kinds[..9]) == 3
  {
    ChoiceAt(kinds, draws, 6, 28733, Operation, 6, 2);
    ChoiceAt(kinds, draws, 7, 9662, Sequence, 5, 3);
    ChoiceAt(kinds, draws, 8, 9828, Sequence, 6, 3);
  }

  lemma FourthChoices(kinds: seq<Kind>, draws: seq<nat>)
    requires |kinds| == |draws| == 29 && Open(kinds[..9]) == 7 && TotalCost(kinds[..9]) == 3
    requires kinds[9] == Sequence && kinds[10] == Sequence && kinds[11] == Loop
    requires draws[9] == 1274 && draws[10] == 4812 && draws[11] == 7842
    ensures forall i :: 9 <= i < 12 ==> ChosenAt(kinds, draws, i)
    ensures Open(kinds[..12]) == 9 && TotalCost(kinds[..12]) == 5
  {
    ChoiceAt(kinds, draws, 9, 1274, Sequence, 7, 3);
    ChoiceAt(kinds, draws, 10, 4812, Sequence, 8, 3);
    ChoiceAt(kinds, draws, 11, 7842, Loop, 9, 3);
  }

  lemma FifthChoices(kinds: seq<Kind>, draws: seq<nat>)
    requires |kinds| == |draws| == 29 && Open(kinds[..12]) == 9 && TotalCost(kinds[..12]) == 5
    requires kinds[12] == Sequence && kinds[13] == Loop && kinds[14] == Sequence
    requires draws[12] == 1094 && draws[13] == 12563 && draws[14] == 0
    ensures forall i :: 12 <= i < 15 ==> ChosenAt(kinds, draws, i)
    ensures Open(kinds[..15]) == 11 && TotalCost(kinds[..15]) == 7
  {
    ChoiceAt(kinds, draws, 12, 1094, Sequence, 9, 5);
    ChoiceAt(kinds, draws, 13, 12563, Loop, 10, 5);
    ChoiceAt(kinds, draws, 14, 0, Sequence, 10, 7);
  }

  lemma SixthChoices(kinds: seq<Kind>, draws: seq<nat>)
    requires |kinds| == |draws| == 29 && Open(kinds[..15]) == 11 && TotalCost(kinds[..15]) == 7
    requires kinds[15] == Loop && kinds[16] == Loop && kinds[17] == Loop
    requires draws[15] == 9655 && draws[16] == 2057 && draws[17] == 1962
    ensures forall i :: 15 <= i < 18 ==> ChosenAt(kinds, draws, i)
    ensures Open(kinds[..18]) == 11 && TotalCost(kinds[..18]) == 13
  {
    ChoiceAt(kinds, draws, 15, 9655, Loop, 11, 7);
    ChoiceAt(kinds, draws, 16, 2057, Loop, 11, 9);
    ChoiceAt(kinds, draws, 17, 1962, Loop, 11, 11);
  }

  lemma SeventhChoices(kinds: seq<Kind>, draws: seq<nat>)
    requires |kinds| == |draws| == 29 && Open(kinds[..18]) == 11 && TotalCost(kinds[..18]) == 13
    requires kinds[18] == Operation && kinds[19] == Operation && kinds[20] == Operation
    requires draws[18] == 12408 && draws[19] == 19679 && draws[20] == 16483
    ensures forall i :: 18 <= i < 21 ==> ChosenAt(kinds, draws, i)
    ensures Open(kinds[..21]) == 8 && TotalCost(kinds[..21]) == 16
  {
    ChoiceAt(kinds, draws, 18, 12408, Operation, 11, 13);
    ChoiceAt(kinds, draws, 19, 19679, Operation, 10, 14);
    ChoiceAt(kinds, draws, 20, 16483, Operation, 9, 15);
  }

  lemma EighthChoices(kinds: seq<Kind>, draws: seq<nat>)
    requires |kinds| == |draws| == 29 && Open(kinds[..21]) == 8 && TotalCost(kinds[..21]) == 16
    requires kinds[21] == Operation && kinds[22] == Operation && kinds[23] == Operation
    requires draws[21] == 17661 && draws[22] == 23918 && draws[23] == 32755
    ensures forall i :: 21 <= i < 24 ==> ChosenAt(kinds, draws, i)
    ensures Open(kinds[..24]) == 5 && TotalCost(kinds[..24]) == 19
  {
    ChoiceAt(kinds, draws, 21, 17661, Operation, 8, 16);
    ChoiceAt(kinds, draws, 22, 23918, Operation, 7, 17);
    ChoiceAt(kinds, draws, 23, 32755, Operation, 6, 18);
  }

  lemma NinthChoices(kinds: seq<Kind>, draws: seq<nat>)
    requires |kinds| == |draws| == 29 && Open(kinds[..24]) == 5 && TotalCost(kinds[..24]) == 19
    requires kinds[24] == Operation && kinds[25] == Operation && kinds[26] == Operation
    requires draws[24] == 14488 && draws[25] == 31482 && draws[26] == 20625
    ensures forall i :: 24 <= i < 27 ==> ChosenAt(kinds, draws, i)
    ensures Open(kinds[..27]) == 2 && TotalCost(kinds[..27]) == 22
  {
    ChoiceAt(kinds, draws, 24, 14488, Operation, 5, 19);
    ChoiceAt(kinds, draws, 25, 31482, Operation, 4, 20);
    ChoiceAt(kinds, draws, 26, 20625, Operation, 3, 21);
  }

  lemma TenthChoices(kinds: seq<Kind>, draws: seq<nat>)
    requires |kinds| == |draws| == 29 && Open(kinds[..27]) == 2 && TotalCost(kinds[..27]) == 22
    requires kinds[27] == Operation && kinds[28] == Operation
    requires draws[27] == 3440 && draws[28] == 4536
    ensures forall i :: 27 <= i < 29 ==> ChosenAt(kinds, draws, i)
    ensures Open(kinds[..29]) == 0 && TotalCost(kinds[..29]) == 24
  {
    ChoiceAt(kinds, draws, 27, 3440, Operation, 2, 22);
    ChoiceAt(kinds, draws, 28, 4536, Operation, 1, 23);
  }

  lemma FirstKinds()
    ensures KINDS[0] == Sequence && KINDS[1] == Sequence && KINDS[2] == Sequence && KINDS[3] == Loop && KINDS[4] == Sequence
  {
  }

  lemma SecondKinds()
    ensures KINDS[5] == Sequence && KINDS[6] == Operation && KINDS[7] == Sequence && KINDS[8] == Sequence && KINDS[9] == Sequence
    ensures KINDS[10] == Sequence && KINDS[11] == Loop && KINDS[12] == Sequence && KINDS[13] == Loop && KINDS[14] == Sequence
  {
  }

  lemma LastKinds()
    ensures KINDS[15] == Loop && KINDS[16] == Loop && KINDS[17] == Loop && KINDS[18] == Operation && KINDS[19] == Operation
    ensures KINDS[20] == Operation && KINDS[21] == Operation && KINDS[22] == Operation && KINDS[23] == Operation && KINDS[24] == Operation
    ensures KINDS[25] == Operation && KINDS[26] == Operation && KINDS[27] == Operation && KINDS[28] == Operation
  {
  }

  lemma FirstDraws()
    ensures DRAWS[0] == 16153 && DRAWS[1] == 10706 && DRAWS[2] == 5682 && DRAWS[3] == 27956 && DRAWS[4] == 7875
  {
  }

  lemma SecondDraws()
    ensures DRAWS[5] == 9996 && DRAWS[6] == 28733 && DRAWS[7] == 9662 && DRAWS[8] == 9828 && DRAWS[9] == 1274
    ensures DRAWS[10] == 4812 && DRAWS[11] == 7842 && DRAWS[12] == 1094 && DRAWS[13] == 12563 && DRAWS[14] == 0
  {
  }

  lemma LastDraws()
    ensures DRAWS[15] == 9655 && DRAWS[16] == 2057 && DRAWS[17] == 1962 && DRAWS[18] == 12408 && DRAWS[19] == 19679
    ensures DRAWS[20] == 16483 && DRAWS[21] == 17661 && DRAWS[22] == 23918 && DRAWS[23] == 32755 && DRAWS[24] == 14488
    ensures DRAWS[25] == 31482 && DRAWS[26] == 20625 && DRAWS[27] == 3440 && DRAWS[28] == 4536
  {
  }

  lemma LongKinds()
    ensures Follows(KINDS, DRAWS) && Open(KINDS) == 0 && TotalCost(KINDS) == 24
  {
    assert KINDS[..0] == [];
    FirstKinds();
    SecondKinds();
    LastKinds();
    FirstDraws();
    SecondDraws();
    LastDraws();
    FirstChoices(KINDS, DRAWS);
    SecondChoices(KINDS, DRAWS);
    ThirdChoices(KINDS, DRAWS);
    FourthChoices(KINDS, DRAWS);
    FifthChoices(KINDS, DRAWS);
    SixthChoices(KINDS, DRAWS);
    SeventhChoices(KINDS, DRAWS);
    EighthChoices(KINDS, DRAWS);
    NinthChoices(KINDS, DRAWS);
    TenthChoices(KINDS, DRAWS);
    assert KINDS[..29] == KINDS;
  }

  lemma OnlyZero(k: nat)
    requires k < 29
    ensures DRAWS[k] == 0 <==> k == 14
  {
    FirstDraws();
    SecondDraws();
    LastDraws();
  }

  lemma OneZero(draws: seq<nat>)
    requires |draws| == 29 && forall k :: 0 <= k < 29 ==> (draws[k] == 0 <==> k == 14)
    ensures Zeros(draws) == 1
  {
    ZerosSplit(draws, 14);
    NoZeros(draws[..14]);
    NoZeros(draws[15..]);
    var late := draws[14..];
    ZerosSplit(late, 1);
    assert late[1..] == draws[15..] && late[..1] == [0] && [0][..0] == [];
  }

  lemma {:induction false} ZerosSplit(draws: seq<nat>, n: nat)
    requires n <= |draws|
    ensures Zeros(draws) == Zeros(draws[..n]) + Zeros(draws[n..])
  {
    var last := |draws| - 1;
    if n <= last {
      ZerosSplit(draws[..last], n);
      assert draws[..last][..n] == draws[..n] && draws[n..][..last - n] == draws[..last][n..];
    } else {
      assert draws[..n] == draws;
    }
  }

  lemma {:induction false} NoZeros(draws: seq<nat>)
    requires forall i :: 0 <= i < |draws| ==> draws[i] != 0
    ensures Zeros(draws) == 0
  {
    if draws != [] {
      NoZeros(draws[..|draws| - 1]);
    }
  }

  /** From this seed random_dma_program_structure builds a tree of 24 instructions, drawing one zero. */
  lemma SeedIsLong()
    ensures Drawn(SEED, DRAWS) && Finished(KINDS, DRAWS) && Zeros(DRAWS) == 1
    ensures Complete(KINDS) && TreeAt(KINDS, 0).Length() == 24
  {
    forall k: nat | k < 29 ensures Line(STATES, DRAWS, k) {
      Table(k);
    }
    TableDrawn(STATES, DRAWS);
    DrawsInRange(SEED, DRAWS);
    LongKinds();
    forall k | 0 <= k < 29 ensures DRAWS[k] == 0 <==> k == 14 {
      OnlyZero(k);
    }
    OneZero(DRAWS);
    FollowsToTheEnd(KINDS, DRAWS);
    TreeOfLevelOrder(KINDS);
  }

  /** A length of at most 23 is certain exactly when no draw may be zero. */
  lemma LimitNeedsNonzeroDraws(z: nat)
    ensures (forall kinds, draws :: Finished(kinds, draws) && Zeros(draws) <= z ==> TotalCost(kinds) <= 23) <==> z == 0
  {
    if z == 0 {
      forall kinds, draws | Finished(kinds, draws) && Zeros(draws) <= z ensures TotalCost(kinds) <= 23 {
        FinishedLimits(kinds, draws);
        TreeOfLevelOrder(kinds);
      }
    } else {
      SeedIsLong();
      TreeOfLevelOrder(KINDS);
    }
  }
}
