/** The static product catalog, as literal data, with the invariants the
    rest of the storefront relies on. */
module Catalog {
  import opened Base
  import opened Products

  const HatSizes: seq<string> := ["S/M", "L/XL", "One Size"]
  const ApparelSizes: seq<string> := ["XS", "S", "M", "L", "XL", "XXL"]

  /** A catalog record: every size is available, and there is no brand,
      original price or description. */
  function Entry(id: int, name: string, price: real, image: string, category: string,
                 rating: real, badge: string, sizes: seq<string>): Product
  {
    Product(id, name, price, image, Some(category), None, Some(badge), Some(rating),
            None, None, Some(sizes), Some(sizes))
  }

  /** The catalog in source order, one block per category as the source
      groups it. */
  const Items: seq<Product> :=
    BucketHats + CamoLongJackets + Caps + Hoodies + QuiltedPuffJackets + Shorts + Sweaters + Tracksuits

  const BucketHats: seq<Product> := [
    Entry(1001, "Bucket Hat 1", 19.99, "/images/bucket-hats/hat1.jpg", "Bucket Hats", 4.5, "New", HatSizes),
    Entry(1002, "Bucket Hat 2", 21.99, "/images/bucket-hats/hat2.jpg", "Bucket Hats", 4.6, "Trending", HatSizes),
    Entry(1003, "Bucket Hat 3", 18.99, "/images/bucket-hats/hat3.jpg", "Bucket Hats", 4.4, "Popular", HatSizes),
    Entry(1004, "Bucket Hat 4", 22.99, "/images/bucket-hats/hat4.jpg", "Bucket Hats", 4.7, "Limited", HatSizes),
    Entry(1005, "Bucket Hat 5", 20.99, "/images/bucket-hats/hat5.jpg", "Bucket Hats", 4.5, "New", HatSizes),
    Entry(1006, "Bucket Hat 6", 19.49, "/images/bucket-hats/hat6.jpg", "Bucket Hats", 4.3, "Classic", HatSizes),
    Entry(1007, "Bucket Hat 7", 23.99, "/images/bucket-hats/hat7.jpg", "Bucket Hats", 4.8, "Premium", HatSizes)
  ]

  const CamoLongJackets: seq<Product> := [
    Entry(2001, "Camo Long Jacket 1", 59.99, "/images/Camo Long Jackets/IMG-20250516-WA0004.jpg", "Camo Long Jackets", 4.5, "New", ApparelSizes),
    Entry(2002, "Camo Long Jacket 2", 64.99, "/images/Camo Long Jackets/IMG-20250605-WA0002.jpg", "Camo Long Jackets", 4.6, "Trending", ApparelSizes)
  ]

  const Caps: seq<Product> := [
    Entry(3001, "Cap 1", 15.99, "/images/Caps/cap1 (1).jpg", "Caps", 4.2, "New", HatSizes),
    Entry(3002, "Cap 2", 16.49, "/images/Caps/cap1 (2).jpg", "Caps", 4.3, "Trending", HatSizes),
    Entry(3003, "Cap 3", 14.99, "/images/Caps/cap1 (3).jpg", "Caps", 4.1, "Popular", HatSizes),
    Entry(3004, "Cap 4", 17.99, "/images/Caps/cap1 (4).jpg", "Caps", 4.4, "Limited", HatSizes),
    Entry(3005, "Cap 5", 15.49, "/images/Caps/cap1 (5).jpg", "Caps", 4.2, "New", HatSizes),
    Entry(3006, "Cap 6", 16.99, "/images/Caps/cap1 (6).jpg", "Caps", 4.3, "Classic", HatSizes),
    Entry(3007, "Cap 7", 18.49, "/images/Caps/cap1 (7).jpg", "Caps", 4.5, "Premium", HatSizes),
    Entry(3008, "Cap 8", 15.99, "/images/Caps/cap1 (8).jpg", "Caps", 4.2, "New", HatSizes),
    Entry(3009, "Cap 9", 17.49, "/images/Caps/cap1 (9).jpg", "Caps", 4.4, "Popular", HatSizes),
    Entry(3010, "Cap 10", 16.99, "/images/Caps/cap1 (10).jpg", "Caps", 4.3, "Trending", HatSizes)
  ]

  const Hoodies: seq<Product> := [
    Entry(4001, "Hoodie 1", 39.99, "/images/Hoodies/IMG-20231113-WA0013.jpg", "Hoodies", 4.6, "New", ApparelSizes),
    Entry(4002, "Hoodie 2", 42.99, "/images/Hoodies/IMG-20231113-WA0014.jpg", "Hoodies", 4.7, "Popular", ApparelSizes)
  ]

  const QuiltedPuffJackets: seq<Product> := [
    Entry(5001, "Quilted Puff Jacket", 89.99, "/images/Quilted puff jacket/signal-2022-05-15-14-37-20-389.jpg", "Quilted puff jacket", 4.8, "Premium", ApparelSizes)
  ]

  const Shorts: seq<Product> := [
    Entry(6001, "Short 1", 24.99, "/images/Shorts/short1 (1).jpg", "Shorts", 4.2, "New", ApparelSizes),
    Entry(6002, "Short 2", 25.99, "/images/Shorts/short1 (2).jpg", "Shorts", 4.3, "Trending", ApparelSizes),
    Entry(6003, "Short 3", 23.99, "/images/Shorts/short1 (3).jpg", "Shorts", 4.1, "Popular", ApparelSizes),
    Entry(6004, "Short 4", 26.99, "/images/Shorts/short1 (4).jpg", "Shorts", 4.4, "Limited", ApparelSizes),
    Entry(6005, "Short 5", 24.49, "/images/Shorts/short1 (5).jpg", "Shorts", 4.2, "New", ApparelSizes),
    Entry(6006, "Short 6", 25.49, "/images/Shorts/short1 (6).jpg", "Shorts", 4.3, "Classic", ApparelSizes),
    Entry(6007, "Short 7", 27.99, "/images/Shorts/short1 (7).jpg", "Shorts", 4.5, "Premium", ApparelSizes),
    Entry(6008, "Short 8", 24.99, "/images/Shorts/short1 (8).jpg", "Shorts", 4.2, "New", ApparelSizes),
    Entry(6009, "Short 9", 26.49, "/images/Shorts/short1 (9).jpg", "Shorts", 4.4, "Popular", ApparelSizes),
    Entry(6010, "Short 10", 25.99, "/images/Shorts/short1 (10).jpg", "Shorts", 4.3, "Trending", ApparelSizes),
    Entry(6011, "Short 11", 24.49, "/images/Shorts/short1 (11).jpg", "Shorts", 4.2, "New", ApparelSizes),
    Entry(6012, "Short 12", 25.49, "/images/Shorts/short1 (12).jpg", "Shorts", 4.3, "Classic", ApparelSizes),
    Entry(6013, "Short 13", 27.99, "/images/Shorts/short1 (13).jpg", "Shorts", 4.5, "Premium", ApparelSizes),
    Entry(6014, "Short 14", 24.99, "/images/Shorts/short1 (14).jpg", "Shorts", 4.2, "New", ApparelSizes),
    Entry(6015, "Short 15", 26.49, "/images/Shorts/short1 (15).jpg", "Shorts", 4.4, "Popular", ApparelSizes),
    Entry(6016, "Short 16", 25.99, "/images/Shorts/short1 (16).jpg", "Shorts", 4.3, "Trending", ApparelSizes)
  ]

  const Sweaters: seq<Product> := [
    Entry(7001, "Sweater 1", 34.99, "/images/Sweaters/s1 (1).jpg", "Sweaters", 4.5, "New", ApparelSizes),
    Entry(7002, "Sweater 2", 36.99, "/images/Sweaters/s1 (2).jpg", "Sweaters", 4.6, "Trending", ApparelSizes),
    Entry(7003, "Sweater 3", 32.99, "/images/Sweaters/s1 (3).jpg", "Sweaters", 4.4, "Popular", ApparelSizes)
  ]

  const Tracksuits: seq<Product> := [
    Entry(8001, "Tracksuit 1", 49.99, "/images/Tracksuits/t1 (1).jpg", "Tracksuits", 4.7, "New", ApparelSizes),
    Entry(8002, "Tracksuit 2", 52.99, "/images/Tracksuits/t1 (2).jpg", "Tracksuits", 4.8, "Trending", ApparelSizes)
  ]
}
