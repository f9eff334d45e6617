/** The record shapes of `src/types/company.ts`. */
module CompanyTypes {

  datatype Option<T> = None | Some(value: T)

  /** One directory entry. `rating` is held in tenths of a star (4.5 is 45),
      so that ratings compare exactly. */
  datatype Company = Company(
    id: string,
    name: string,
    industry: string,
    location: string,
    employeeCount: string,
    founded: int,
    description: string,
    website: string,
    revenue: string,
    logo: string,
    rating: int,
    email: string,
    phone: string,
    about: string,
    industryInsight: string)

  /** The free-text search and the three selectors; a selector holding
      `All` places no constraint. */
  datatype FilterState = FilterState(
    search: string,
    industry: string,
    location: string,
    employeeCount: string)

  /** The sentinel selector value. */
  const All: string := "all"

  datatype SortField = ByName | ByLocation | ByIndustry | ByFounded

  datatype SortOrder = Asc | Desc
}
