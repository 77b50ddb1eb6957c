/** The constants of section 3.4 of RFC 1321: entry i is the integer part of 2^32
    times the absolute value of the sine of i, in radians.  Sines and cosines are
    taken to sixteen decimal places, from those of 1 by the addition theorems. */
module Md5Sine {
  import opened Bytes

  const SCALE: int := 10_000_000_000_000_000
  const SIN1: int := 8_414_709_848_078_965
  const COS1: int := 5_403_023_058_681_397

  // Both are right in every place: two neighbouring sums of the power series,
  // between which the value lies, agree with them.
  lemma SineOfOne()
    ensures var series := 51090942171709440000 - 8515157028618240000 + 425757851430912000 - 10137091700736000 + 140792940288000 - 1279935820800 + 8204716800 - 39070080 + 143640 - 420;
            SIN1 * 51090942171709440000 <= SCALE * series && SCALE * (series + 1) < (SIN1 + 1) * 51090942171709440000
  {
  }

  lemma CosineOfOne()
    ensures var series := 2432902008176640000 - 1216451004088320000 + 101370917007360000 - 3379030566912000 + 60339831552000 - 670442572800 + 5079110400 - 27907200 + 116280 - 380;
            COS1 * 2432902008176640000 <= SCALE * series && SCALE * (series + 1) < (COS1 + 1) * 2432902008176640000
  {
  }

  datatype Angle = Angle(sine: int, cosine: int) {
    // One radian further.
    function Next(): Angle {
      Angle((sine * COS1 + cosine * SIN1) / SCALE, (cosine * COS1 - sine * SIN1) / SCALE)
    }

    function Constant(): int {
      0x1_0000_0000 * (if sine < 0 then -sine else sine) / SCALE
    }
  }

  function Radians(n: nat): Angle {
    if n == 0 then Angle(0, SCALE) else Radians(n - 1).Next()
  }

  // ----- their values -----

  function Listed(n: nat): Angle {
    match n
    case 0 => Angle(0, 10_000_000_000_000_000)
    case 1 => Angle(8_414_709_848_078_965, 5_403_023_058_681_397)
    case 2 => Angle(9_092_974_268_256_816, -4_161_468_365_471_424)
    case 3 => Angle(1_411_200_080_598_671, -9_899_924_966_004_454)
    case 4 => Angle(-7_568_024_953_079_283, -6_536_436_208_636_118)
    case 5 => Angle(-9_589_242_746_631_384, 2_836_621_854_632_263)
    case 6 => Angle(-2_794_154_981_989_258, 9_601_702_866_503_659)
    case 7 => Angle(6_569_865_987_187_890, 7_539_022_543_433_044)
    case 8 => Angle(9_893_582_466_233_815, -1_455_000_338_086_136)
    case 9 => Angle(4_121_184_852_417_563, -9_111_302_618_846_768)
    case 10 => Angle(-5_440_211_108_893_699, -8_390_715_290_764_522)
    case 11 => Angle(-9_999_902_065_507_033, 44_256_979_880_510)
    case 12 => Angle(-5_365_729_180_004_347, 8_438_539_587_324_920)
    case 13 => Angle(4_201_670_368_266_409, 9_074_467_814_501_959)
    case 14 => Angle(9_906_073_556_948_700, 1_367_372_182_078_334)
    case 15 => Angle(6_502_878_401_571_165, -7_596_879_128_588_212)
    case 16 => Angle(-2_879_033_166_650_655, -9_576_594_803_233_843)
    case 17 => Angle(-9_613_974_918_795_567, -2_751_633_380_515_966)
    case 18 => Angle(-7_509_872_467_716_758, 6_603_167_082_440_801)
    case 19 => Angle(1_498_772_096_629_524, 9_887_046_181_866_689)
    case 20 => Angle(9_129_452_507_276_273, 4_080_820_618_133_917)
    case 21 => Angle(8_366_556_385_360_555, -5_477_292_602_242_683)
    case 22 => Angle(-88_513_092_904_041, -9_999_608_263_946_366)
    case 23 => Angle(-8_462_204_041_751_704, -5_328_330_203_333_971)
    case 24 => Angle(-9_055_783_620_066_234, 4_241_790_073_369_970)
    case 25 => Angle(-1_323_517_500_977_728, 9_912_028_118_634_732)
    case 26 => Angle(7_625_584_504_796_025, 6_469_193_223_286_399)
    case 27 => Angle(9_563_759_284_045_024, -2_921_388_087_338_363)
    case 28 => Angle(2_709_057_883_078_685, -9_626_058_663_135_662)
    case 29 => Angle(-6_636_338_842_129_675, -7_480_575_296_889_997)
    case 30 => Angle(-9_880_316_240_928_613, 1_542_514_498_875_844)
    case 31 => Angle(-4_040_376_453_230_645, 9_147_423_578_045_310)
    case 32 => Angle(5_514_266_812_416_905, 8_342_233_605_065_096)
    case 33 => Angle(9_999_118_601_072_665, -132_767_472_230_599)
    case 34 => Angle(5_290_826_861_200_231, -8_485_702_747_846_049)
    case 35 => Angle(-4_281_826_694_961_512, -9_036_922_050_915_060)
    case 36 => Angle(-9_917_788_534_431_152, -1_279_636_896_274_041)
    case 37 => Angle(-6_435_381_333_569_987, 7_654_140_519_453_432)
    case 38 => Angle(2_963_685_787_093_856, 9_550_736_440_472_941)
    case 39 => Angle(9_637_953_862_840_872, 2_666_429_323_599_365)
    case 40 => Angle(7_451_131_604_793_478, -6_669_380_616_522_618)
    case 41 => Angle(-1_586_226_688_047_095, -9_873_392_775_238_256)
    case 42 => Angle(-9_165_215_479_156_334, -3_999_853_149_883_504)
    case 43 => Angle(-8_317_747_426_285_974, 5_551_133_015_206_258)
    case 44 => Angle(177_019_251_054_141, 9_998_433_086_476_905)
    case 45 => Angle(8_509_035_245_341_180, 5_253_219_888_177_288)
    case 46 => Angle(9_017_883_476_488_081, -4_321_779_448_847_785)
    case 47 => Angle(1_235_731_227_452_232, -9_923_354_691_509_280)
    case 48 => Angle(-7_682_546_613_236_667, -6_401_443_394_691_987)
    case 49 => Angle(-9_537_526_527_594_709, 3_005_925_437_436_375)
    case 50 => Angle(-2_623_748_537_039_280, 9_649_660_284_921_127)
    case 51 => Angle(6_702_291_758_433_746, 7_421_541_968_137_815)
    case 52 => Angle(9_866_275_920_404_843, -1_629_907_807_957_060)
    case 53 => Angle(3_959_251_501_818_331, -9_182_827_862_121_184)
    case 54 => Angle(-5_587_890_488_516_165, -8_293_098_328_631_490)
    case 55 => Angle(-9_997_551_733_586_190, 221_267_562_619_565)
    case 56 => Angle(-5_215_510_020_869_108, 8_532_201_077_225_838)
    case 57 => Angle(4_361_647_552_478_252, 8_998_668_269_691_926)
    case 58 => Angle(9_928_726_480_845_362, 1_191_801_354_488_184)
    case 59 => Angle(6_367_380_071_391_366, -7_710_802_229_758_450)
    case 60 => Angle(-3_048_106_211_022_173, -9_524_129_804_151_551)
    case 61 => Angle(-9_661_177_700_083_923, -2_581_016_359_382_663)
    case 62 => Angle(-7_391_806_966_492_216, 6_735_071_623_235_863)
    case 63 => Angle(1_673_557_003_028_076, 9_858_965_815_825_486)
    case _ => Angle(9_200_260_381_967_901, 3_918_572_304_295_488)
  }

  // b is one radian further than a, without division.
  predicate Turns(a: Angle, b: Angle) {
    && SCALE * b.sine <= a.sine * COS1 + a.cosine * SIN1 < SCALE * (b.sine + 1)
    && SCALE * b.cosine <= a.cosine * COS1 - a.sine * SIN1 < SCALE * (b.cosine + 1)
  }

  predicate Gives(a: Angle, t: int) {
    SCALE * t <= 0x1_0000_0000 * (if a.sine < 0 then -a.sine else a.sine) < SCALE * (t + 1)
  }

  lemma TurnsIsNext(a: Angle, b: Angle)
    requires Turns(a, b)
    ensures a.Next() == b
  {
    var s, c := a.sine * COS1 + a.cosine * SIN1, a.cosine * COS1 - a.sine * SIN1;
    DivMod(s, SCALE, b.sine, s - SCALE * b.sine);
    DivMod(c, SCALE, b.cosine, c - SCALE * b.cosine);
  }

  lemma GivesIsConstant(a: Angle, t: int)
    requires Gives(a, t)
    ensures a.Constant() == t
  {
    var v := 0x1_0000_0000 * (if a.sine < 0 then -a.sine else a.sine);
    DivMod(v, SCALE, t, v - SCALE * t);
  }

  lemma ListedTurns0(n: nat)
    requires 0 <= n < 16
    ensures Turns(Listed(n), Listed(n + 1))
  {
  }

  lemma ListedTurns16(n: nat)
    requires 16 <= n < 32
    ensures Turns(Listed(n), Listed(n + 1))
  {
  }

  lemma ListedTurns32(n: nat)
    requires 32 <= n < 48
    ensures Turns(Listed(n), Listed(n + 1))
  {
  }

  lemma ListedTurns48(n: nat)
    requires 48 <= n < 64
    ensures Turns(Listed(n), Listed(n + 1))
  {
  }

  lemma {:induction false} RadiansListed(n: nat)
    requires n <= 64
    ensures Radians(n) == Listed(n)
  {
    if n > 0 {
      var k := n - 1;
      RadiansListed(k);
      if k < 16 { ListedTurns0(k); } else if k < 32 { ListedTurns16(k); } else if k < 48 { ListedTurns32(k); } else { ListedTurns48(k); }
      TurnsIsNext(Listed(k), Listed(n));
    }
  }
}
