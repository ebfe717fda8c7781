/**
  The CATEGORIES table of category_recommender_e5_faiss.py and the facts about its codes
  that recommend's lookup relies on.
*/
module CategoryTable {
  import opened Wrappers
  import opened Decimal
  import opened CategoryRecommender

  /** CATEGORIES: twenty categories, every one with a synonyms list. */
  const Categories: seq<Category> := [
    Category("1001", "HOME > Tools", "General purpose tools for home use",
      ["공구", "툴", "드라이버", "렌치", "가위", "가정용"],
      Some(["도구", "수공구"])),
    Category("1002", "HOME > Tools > living", "Everyday living tools and household aids",
      ["생활 공구", "생활 도구", "집", "가정"],
      Some(["생활용품", "하우스웨어"])),
    Category("1003", "HOME > Tools > living > general", "General small tools used in daily life",
      ["다용도", "일상", "간편", "가위", "커터"],
      Some(["문구 가위", "만능 가위", "커터칼"])),
    Category("1101", "HOME > Kitchen > Cookware", "Pots, pans and cooking vessels",
      ["프라이팬", "팬", "냄비", "웍", "스테인리스", "코팅"],
      Some(["후라이팬", "프라이 팬"])),
    Category("1102", "HOME > Kitchen > Cutlery", "Kitchen knives, scissors, and cutting tools",
      ["주방용 가위", "식도", "칼", "절삭"],
      Some(["키친 가위", "부엌 가위"])),
    Category("2001", "ELECTRONICS > Laptop > Gaming", "High performance gaming laptops",
      ["게이밍", "RTX", "고성능", "RGB", "쿨링", "노트북"],
      Some(["게이밍 노트북", "그래픽 노트북"])),
    Category("2002", "ELECTRONICS > Laptop > Ultrabook", "Thin and light ultrabooks",
      ["슬림", "경량", "울트라북", "휴대성", "노트북"],
      Some(["초경량 노트북", "라이트 노트북"])),
    Category("2101", "ELECTRONICS > Audio > Headphones", "Over-ear and in-ear headphones",
      ["헤드폰", "이어폰", "노이즈캔슬링", "블루투스"],
      Some(["헤드셋", "헤드 세트"])),
    Category("3001", "BEAUTY > Skincare > Cleanser", "Facial cleansers and face wash products",
      ["클렌저", "세안", "폼클렌징", "저자극"],
      Some(["세안폼", "폼클렌저"])),
    Category("3002", "BEAUTY > Hair > Dryer", "Hair dryers and styling dryers",
      ["헤어드라이어", "드라이기", "강풍", "온도조절"],
      Some(["헤어 드라이어", "헤어 드라이기"])),
    Category("4001", "SPORTS > Fitness > Treadmill", "Home treadmills and running machines",
      ["런닝머신", "트레드밀", "접이식", "가정용"],
      Some(["러닝머신", "러닝 머신"])),
    Category("4002", "SPORTS > Outdoor > Camping > Tent", "Camping tents for outdoor use",
      ["텐트", "캠핑", "방수", "4인용"],
      Some(["원터치 텐트", "돔 텐트"])),
    Category("5001", "FASHION > Men > Shoes > Sneakers", "Men's sneakers and casual shoes",
      ["스니커즈", "운동화", "러닝화", "경량"],
      Some(["스니커", "슈즈"])),
    Category("5002", "FASHION > Women > Bag > Tote", "Women's tote bags",
      ["토트백", "가죽", "수납", "데일리백"],
      Some(["토트 백", "숄더 토트"])),
    Category("6001", "AUTOMOTIVE > Parts > Wiper", "Car wiper blades and accessories",
      ["와이퍼", "자동차", "빗물제거", "블레이드"],
      Some(["차량용 와이퍼"])),
    Category("7001", "PET > Dog > Food > Dry", "Dry dog food and kibble",
      ["강아지 사료", "드라이", "소형견", "전연령"],
      Some(["건식 사료"])),
    Category("8001", "BABY > Diaper > Tape", "Tape diapers for babies",
      ["기저귀", "테이프형", "흡수", "피부"],
      Some(["테이프 기저귀"])),
    Category("9001", "GROCERY > Beverage > Coffee", "Coffee beans, ground coffee, and instant",
      ["커피", "원두", "드립", "인스턴트"],
      Some(["드립백", "드립 백", "원두커피"])),
    Category("10001", "OFFICE > Stationery > Scissors", "Office and stationery scissors",
      ["가위", "문구", "스테인리스", "보관 캡"],
      Some(["사무용 가위", "스테인레스 가위"])),
    Category("10002", "OFFICE > Stationery > Tape Dispenser", "Tape dispensers and cutters",
      ["테이프", "디스펜서", "커터기", "사무"],
      Some(["테이프 홀더", "테이프 커터"]))
  ]

  /** Every code is what str() gives for some non-negative integer: digits only, no leading zero. */
  lemma CodesCanonical()
    ensures forall i :: 0 <= i < |Categories| ==> Canonical(Categories[i].code)
  {
  }

  /** No two categories share a code. */
  lemma CodesDistinct()
    ensures forall i, j :: 0 <= i < j < |Categories| ==> Categories[i].code != Categories[j].code
  {
  }

  /** The table meets what the generic round-trip lemmas ask of it. */
  lemma TableWellCoded()
    ensures WellCoded(Categories)
  {
    CodesCanonical();
    CodesDistinct();
  }

  /** The round trip for the CATEGORIES table itself. */
  lemma IndexIdRoundTrip(i: nat)
    requires i < |Categories|
    ensures AllDigits(Categories[i].code)
    ensures FindByCode(Categories, IntToString(Parse(Categories[i].code))) == Some(Categories[i])
  {
    TableWellCoded();
    IdRoundTrip(Categories, i);
  }

  /**
    When FAISS returns only ids it was given by build_label_index, every lookup succeeds, so
    Recommend returns Success with exactly k results.
  */
  lemma IndexedIdsResolve(ids: seq<int>, k: int)
    requires k <= |ids|
    requires forall i :: 0 <= i < k ==> exists j :: 0 <= j < |Categories| && AllDigits(Categories[j].code) && ids[i] == Parse(Categories[j].code)
    ensures forall i :: 0 <= i < k ==> Resolves(Categories, ids[i])
  {
    forall i | 0 <= i < k
      ensures Resolves(Categories, ids[i])
    {
      var j :| 0 <= j < |Categories| && AllDigits(Categories[j].code) && ids[i] == Parse(Categories[j].code);
      IndexIdRoundTrip(j);
    }
  }

  /**
    FAISS pads a search with id -1 when it has fewer than max(k, 10) neighbours; such an id
    has no category, so recommend raises StopIteration for it.
  */
  lemma PaddingIdFails(id: int)
    requires id < 0
    ensures !Resolves(Categories, id)
  {
    TableWellCoded();
    NegativeIdNeverResolves(Categories, id);
  }
}
