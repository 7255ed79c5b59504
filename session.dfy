/** The authentication status that `useSession()` reports to the client components. */
module Session {

  datatype AuthStatus = Loading | Authenticated | Unauthenticated
}
