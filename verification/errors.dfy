/** Every error the domain entities and the stock helper throw, with its exact message. */
module Errors {

  datatype Error =
    // stock helper
    | QuantityNotNumber | NegativeStock
    // missing required properties, per entity
    | ProductMissingFields | MagazineMissingFields | SchoolSupplyMissingFields
    | OrderMissingFields | SaleMissingFields | SupplierMissingFields
    // numeric bounds
    | PriceNotPositive | StockNotPositive | NumberNotPositive | IssueNumberNotPositive | QuantityNotPositive
    // other field checks
    | InvalidDate | DescriptionNotString | InvalidProductId
    // order status
    | InvalidStatus | CancelledOrder | DeliveredOnlyCancelled
    // supplier
    | InvalidEmail | PhoneNotString | PhoneTooShort | CatalogNotArray
    | InvalidCatalogItem | DuplicateCatalogItem | CatalogItemNotFound

  /** The text of the thrown `Error` (for PhoneNotString, the runtime's TypeError). */
  function Message(e: Error): string
  {
    match e
    case QuantityNotNumber => "Quantity must be a number"
    case NegativeStock => "Stock cannot be negative"
    case ProductMissingFields => "Product must have a productId, name, and category"
    case MagazineMissingFields => "Magazine must have all required properties"
    case SchoolSupplyMissingFields => "SchoolSupply must have all required properties"
    case OrderMissingFields => "Order must have all required properties"
    case SaleMissingFields => "Sale must have all required properties"
    case SupplierMissingFields => "Supplier must have all required properties"
    case PriceNotPositive => "Price must be a positive number"
    case StockNotPositive => "Stock must be a positive number"
    case NumberNotPositive => "Number must be a positive number"
    case IssueNumberNotPositive => "Issue number must be a positive number"
    case QuantityNotPositive => "Quantity must be a positive number"
    case InvalidDate => "Date must be a valid Date object"
    case DescriptionNotString => "Description must be a string"
    case InvalidProductId => "Product must have a valid ID"
    case InvalidStatus => "Invalid order status"
    case CancelledOrder => "Cannot update status of a cancelled order"
    case DeliveredOnlyCancelled => "Delivered order can only be cancelled"
    case InvalidEmail => "Invalid email format"
    case PhoneNotString => "phoneNumber.replace is not a function"
    case PhoneTooShort => "Phone number must have at least 9 digits"
    case CatalogNotArray => "Catalog must be an array"
    case InvalidCatalogItem => "Invalid catalog item"
    case DuplicateCatalogItem => "Item with this ID already exists in catalog"
    case CatalogItemNotFound => "Item not found in catalog"
  }
}
