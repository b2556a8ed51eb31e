/** The catalog's product entity: a mutable object whose value is a record of six fields. */
module ProductModel {
  import opened Wrappers
  import opened JavaLong

  /** A Java String field, which may be null. */
  type NullableString = Option<string>

  /**
   * The value of a product at one moment. `price` stands for the Java double: only its
   * ordering is used, so an integer carries it.
   */
  datatype ProductRecord = ProductRecord(
    id: Long,
    name: NullableString,
    category: NullableString,
    brand: NullableString,
    price: int,
    stock: int)

  /** A product object; the repository and the service pass it by reference and its setters change it in place. */
  class Product {
    var id: Long
    var name: NullableString
    var category: NullableString
    var brand: NullableString
    var price: int
    var stock: int

    /** The current field values as one record. */
    function Value(): ProductRecord
      reads this
    {
      ProductRecord(id, name, category, brand, price, stock)
    }

    /** The no-argument constructor: every field at its Java default, so id 0 marks the product as new. */
    constructor Empty()
      ensures Value() == ProductRecord(0, None, None, None, 0, 0)
    {
      id, name, category, brand, price, stock := 0, None, None, None, 0, 0;
    }

    /** The five-argument constructor: stores the given fields and leaves the id at 0 for the repository to assign. */
    constructor (name: NullableString, category: NullableString, brand: NullableString, price: int, stock: int)
      ensures Value() == ProductRecord(0, name, category, brand, price, stock)
    {
      this.id := 0;
      this.name := name;
      this.category := category;
      this.brand := brand;
      this.price := price;
      this.stock := stock;
    }

    method SetId(id: Long)
      modifies this
      ensures Value() == old(Value()).(id := id)
    {
      this.id := id;
    }

    method SetName(name: NullableString)
      modifies this
      ensures Value() == old(Value()).(name := name)
    {
      this.name := name;
    }

    method SetCategory(category: NullableString)
      modifies this
      ensures Value() == old(Value()).(category := category)
    {
      this.category := category;
    }

    method SetBrand(brand: NullableString)
      modifies this
      ensures Value() == old(Value()).(brand := brand)
    {
      this.brand := brand;
    }

    method SetPrice(price: int)
      modifies this
      ensures Value() == old(Value()).(price := price)
    {
      this.price := price;
    }

    method SetStock(stock: int)
      modifies this
      ensures Value() == old(Value()).(stock := stock)
    {
      this.stock := stock;
    }

    /**
     * Java's equals: the same object, or every field equal. The result is exactly equality
     * of the two records, so no field is left out of the comparison.
     */
    function Equals(o: Product): (r: bool)
      reads this, o
      ensures r <==> Value() == o.Value()
    {
      this == o ||
      (id == o.id && price == o.price && stock == o.stock &&
       name == o.name && category == o.category && brand == o.brand)
    }
  }

  /** Equality of products is reflexive, symmetric and transitive, because it is equality of their records. */
  lemma EqualsIsEquivalence(a: Product, b: Product, c: Product)
    ensures a.Equals(a)
    ensures a.Equals(b) <==> b.Equals(a)
    ensures a.Equals(b) && b.Equals(c) ==> a.Equals(c)
  {
  }

  /** Two products that differ in any single field are not equal. */
  lemma EqualsSeesEveryField(a: Product, b: Product)
    requires a.id != b.id || a.name != b.name || a.category != b.category ||
             a.brand != b.brand || a.price != b.price || a.stock != b.stock
    ensures !a.Equals(b)
  {
  }
}
