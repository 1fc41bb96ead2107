/** Addresses: the one a user stores with setRegion, and the snapshots the
    three ticket kinds copy from it at submission time. Every address holds
    four independent, optional references into the region table; they are
    stored as given, not derived from one another. */
module Addresses {
  import opened Common

  /** The four region references of an address. */
  datatype RegionRefs = RegionRefs(region: Option<Id>, district: Option<Id>, neighborhood: Option<Id>, street: Option<Id>)

  /** A user's address, as setRegion writes it. */
  datatype UserAddress = UserAddress(
    region: Id,
    district: Id,
    neighborhood: Option<Id>,
    street: Option<Id>,
    neighborhoodCustom: string,
    streetCustom: string,
    houseType: string,
    houseNumber: string,
    apartment: string)
  {
    function Refs(): RegionRefs
    {
      RegionRefs(Some(region), Some(district), neighborhood, street)
    }
  }

  /** The address sub-document of a Request and of an MskOrder: the user's
      address without houseType, which their schemas do not declare. */
  datatype Address = Address(
    region: Option<Id>,
    district: Option<Id>,
    neighborhood: Option<Id>,
    street: Option<Id>,
    neighborhoodCustom: string,
    streetCustom: string,
    houseNumber: string,
    apartment: string)
  {
    function Refs(): RegionRefs
    {
      RegionRefs(region, district, neighborhood, street)
    }
  }

  /** The address sub-document of a ServiceReport: four references and the two custom names. */
  datatype ReportAddress = ReportAddress(
    region: Option<Id>,
    district: Option<Id>,
    neighborhood: Option<Id>,
    street: Option<Id>,
    neighborhoodCustom: string,
    streetCustom: string)
  {
    function Refs(): RegionRefs
    {
      RegionRefs(region, district, neighborhood, street)
    }
  }

  /** `address: user.address` cast into the Request / MskOrder address schema. */
  function TicketAddress(a: UserAddress): (r: Address)
    ensures r.Refs() == a.Refs()
  {
    Address(Some(a.region), Some(a.district), a.neighborhood, a.street,
            a.neighborhoodCustom, a.streetCustom, a.houseNumber, a.apartment)
  }

  /** The six fields createReport copies from the user's address. */
  function ReportAddressOf(a: UserAddress): (r: ReportAddress)
    ensures r.Refs() == a.Refs()
  {
    ReportAddress(Some(a.region), Some(a.district), a.neighborhood, a.street,
                  a.neighborhoodCustom, a.streetCustom)
  }
}
